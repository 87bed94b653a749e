/**
 * Bounded-retry word placement, shared by the server generator
 * (`generateWordSearchGame`, 4 forward directions, its own `canPlaceWord`)
 * and the browser game (`placeWords`, 8 directions, the plain per-letter test).
 *
 * Every attempt is three `Math.random` draws, already scaled: a start row, a
 * start column and an index into the direction table. The attempts form one
 * stream: a word uses at most 100 of them, stopping at the first that fits,
 * and the next word continues with the draw after the last one used.
 */
module Placement {
  import opened Common
  import opened Grids

  const MaxAttempts: nat := 100

  type Index = i: int | 0 <= i < Size

  datatype Attempt = Attempt(row: Index, col: Index, dir: nat)

  /** Which engine is placing: the server generator or the browser game. */
  datatype Variant = Server | Client

  function Directions(v: Variant): (ds: seq<Direction>)
    ensures v == Server ==> |ds| == 4
    ensures v == Client ==> |ds| == 8
  {
    match v
    case Server => [Delta(0, 1), Delta(1, 0), Delta(1, 1), Delta(1, -1)]
    case Client =>
      [Delta(0, 1), Delta(1, 0), Delta(1, 1), Delta(1, -1),
       Delta(0, -1), Delta(-1, 0), Delta(-1, -1), Delta(-1, 1)]
  }

  /** Every attempt's direction index selects an entry of the variant's table. */
  predicate DirsIn(v: Variant, draws: seq<Attempt>) {
    forall i :: 0 <= i < |draws| ==> draws[i].dir < |Directions(v)|
  }

  /** The server's end-point test: one past the last letter must still be inside. */
  predicate ServerBound(w: string, start: Pos, d: Direction) {
    start.row + |w| * d.dr < Size && start.col + |w| * d.dc < Size
  }

  /**
   * The server's `canPlaceWord`. Its letter loop reads `grid[r][c]` with no
   * bounds test; for its four directions the row always stays inside, and a
   * negative column reads `undefined`, which differs from both `''` and the
   * letter. That read is modelled by the explicit inside-the-grid test of
   * `PathFits`.
   */
  function ServerCanPlace(g: Grid, w: string, r: int, c: int, d: Direction): (ok: bool)
    requires IsGrid(g)
  {
    if r < 0 || r >= Size || c < 0 || c >= Size then false
    else if r + |w| * d.dr >= Size || c + |w| * d.dc >= Size then false
    else PathFits(g, w, Pos(r, c), d, 0)
  }

  /**
   * The server accepts exactly when the start is inside, the end-point bound
   * holds, and every letter's cell is inside and empty or equal to the letter.
   */
  lemma {:induction false} ServerCanPlaceSpec(g: Grid, w: string, r: int, c: int, d: Direction)
    requires IsGrid(g)
    ensures ServerCanPlace(g, w, r, c, d) <==>
      && InGrid(Pos(r, c))
      && ServerBound(w, Pos(r, c), d)
      && forall i :: 0 <= i < |w| ==> Fits(g, Step(Pos(r, c), d, i), w[i])
  {
  }

  /** Whether the variant's `canPlaceWord` accepts the attempt. */
  predicate Accepts(v: Variant, g: Grid, w: string, a: Attempt)
    requires IsGrid(g)
    requires a.dir < |Directions(v)|
  {
    var d := Directions(v)[a.dir];
    match v
    case Server => ServerCanPlace(g, w, a.row, a.col, d)
    case Client => PathFits(g, w, Pos(a.row, a.col), d, 0)
  }

  /** Whether each of the first 100 attempts is accepted for w. */
  function Verdicts(v: Variant, g: Grid, w: string, draws: seq<Attempt>): (oks: seq<bool>)
    requires IsGrid(g)
    requires MaxAttempts <= |draws|
    requires DirsIn(v, draws)
    ensures |oks| == MaxAttempts
    ensures forall j :: 0 <= j < MaxAttempts ==> oks[j] == Accepts(v, g, w, draws[j])
  {
    seq(MaxAttempts, j requires 0 <= j < MaxAttempts => Accepts(v, g, w, draws[j]))
  }

  /**
   * The retry loop for one word from attempt k on: the index of the first of
   * the attempts k..99 that is accepted, or `None` when all of them fail.
   */
  function FirstFit(oks: seq<bool>, k: nat): (r: Option<nat>)
    requires k <= |oks|
    ensures r.Some? ==> k <= r.value < |oks| && oks[r.value]
    ensures r.Some? ==> forall j :: k <= j < r.value ==> !oks[j]
    ensures r.None? ==> forall j :: k <= j < |oks| ==> !oks[j]
    decreases |oks| - k
  {
    if k == |oks| then None
    else if oks[k] then Some(k)
    else FirstFit(oks, k + 1)
  }

  /** Where a word was put: its first letter's cell and its direction. */
  datatype Spot = Spot(start: Pos, dir: Direction)

  /**
   * The outcome of placing a list of words: the grid, the spot of each word
   * (`None` for a word dropped after 100 failed attempts), and the number of
   * attempts drawn.
   */
  datatype Layout = Layout(grid: Grid, spots: seq<Option<Spot>>, used: nat)

  function SpotOf(v: Variant, a: Attempt): Spot
    requires a.dir < |Directions(v)|
  {
    Spot(Pos(a.row, a.col), Directions(v)[a.dir])
  }

  /** An accepted attempt leaves every letter of the word inside the grid, on cells that fit. */
  lemma {:induction false} AcceptedFits(v: Variant, g: Grid, w: string, a: Attempt)
    requires IsGrid(g)
    requires a.dir < |Directions(v)|
    requires Accepts(v, g, w, a)
    ensures InGrid(SpotOf(v, a).start)
    ensures PathFits(g, w, SpotOf(v, a).start, SpotOf(v, a).dir, 0)
    ensures v == Server ==> ServerBound(w, SpotOf(v, a).start, SpotOf(v, a).dir)
  {
  }

  /** The spot is admissible for the variant: a table direction, and for the server the end-point bound. */
  predicate Admissible(v: Variant, w: string, s: Spot) {
    InGrid(s.start) && s.dir in Directions(v) && (v == Server ==> ServerBound(w, s.start, s.dir))
  }

  /** A spot admissible for the server holds a word of fewer than 15 letters. */
  lemma {:induction false} ServerSpotShort(w: string, s: Spot)
    requires Admissible(Server, w, s)
    ensures |w| < Size
  {
    ForwardStep(s.dir);
    if s.dir.dr == 1 {
      assert s.start.row + |w| * s.dir.dr == s.start.row + |w|;
    } else {
      assert s.start.col + |w| * s.dir.dc == s.start.col + |w|;
    }
  }

  /** One word's turn of the placement loop: the grid after it, its spot, and the attempts it drew. */
  datatype Turn = Turn(grid: Grid, spot: Option<Spot>, used: nat)

  /**
   * Places one word at the first accepted attempt among the first 100: the
   * word is written there and readable; with no accepted attempt the grid is
   * unchanged and all 100 attempts are spent. Either way no letter already
   * in the grid changes.
   */
  function PlaceOne(v: Variant, g: Grid, w: string, draws: seq<Attempt>): (t: Turn)
    requires IsGrid(g)
    requires MaxAttempts <= |draws|
    requires DirsIn(v, draws)
    ensures IsGrid(t.grid) && 1 <= t.used <= MaxAttempts
    ensures Extends(g, t.grid)
    ensures t.spot.Some? ==> Admissible(v, w, t.spot.value) && Spells(t.grid, w, t.spot.value.start, t.spot.value.dir)
    ensures t.spot.Some? ==> t.grid == PlaceWord(g, w, t.spot.value.start, t.spot.value.dir)
    ensures t.spot.None? ==> t.grid == g && t.used == MaxAttempts
  {
    match FirstFit(Verdicts(v, g, w, draws), 0)
    case Some(k) =>
      var s := SpotOf(v, draws[k]);
      AcceptedFits(v, g, w, draws[k]);
      PlaceWordKeepsLetters(g, w, s.start, s.dir);
      Turn(PlaceWord(g, w, s.start, s.dir), Some(s), k + 1)
    case None => Turn(g, None, MaxAttempts)
  }

  /**
   * The turn's spot comes from the first accepted attempt: attempt `used - 1`
   * is accepted and gives the spot, and every earlier one is refused; with no
   * spot, all 100 attempts are refused.
   */
  lemma {:induction false} PlaceOneFirstFit(v: Variant, g: Grid, w: string, draws: seq<Attempt>)
    requires IsGrid(g)
    requires MaxAttempts <= |draws|
    requires DirsIn(v, draws)
    ensures var t := PlaceOne(v, g, w, draws);
      && (t.spot.Some? ==> Accepts(v, g, w, draws[t.used - 1]) && t.spot.value == SpotOf(v, draws[t.used - 1]))
      && (t.spot.Some? ==> forall j :: 0 <= j < t.used - 1 ==> !Accepts(v, g, w, draws[j]))
      && (t.spot.None? ==> forall j :: 0 <= j < MaxAttempts ==> !Accepts(v, g, w, draws[j]))
  {
    match FirstFit(Verdicts(v, g, w, draws), 0)
    case Some(k) =>
      assert PlaceOne(v, g, w, draws).used == k + 1;
    case None =>
      assert PlaceOne(v, g, w, draws).spot.None?;
  }

  /**
   * The placement loop over the words, in order. Each word takes its turn on
   * the attempts after those the earlier words drew; a placed word is in the
   * grid before the next word is tried.
   */
  function PlaceAll(v: Variant, g: Grid, words: seq<string>, draws: seq<Attempt>): (out: Layout)
    requires IsGrid(g)
    requires |draws| >= MaxAttempts * |words|
    requires DirsIn(v, draws)
    ensures IsGrid(out.grid)
    ensures |out.spots| == |words|
    ensures out.used <= MaxAttempts * |words|
    ensures Extends(g, out.grid)
    decreases |words|
  {
    if |words| == 0 then Layout(g, [], 0)
    else
      var t := PlaceOne(v, g, words[0], draws);
      var rest := PlaceAll(v, t.grid, words[1..], draws[t.used..]);
      ExtendsTransitive(g, t.grid, rest.grid);
      Layout(rest.grid, [t.spot] + rest.spots, t.used + rest.used)
  }

  /** Cell p lies on the path of some word that received a spot. */
  ghost predicate Covered(words: seq<string>, spots: seq<Option<Spot>>, p: Pos)
    requires |spots| == |words|
  {
    exists k :: 0 <= k < |words| && spots[k].Some? && p in Positions(spots[k].value.start, spots[k].value.dir, |words[k]|)
  }

  /** A turn writes nothing but its word: every cell it fills lies on the word's path. */
  lemma {:induction false} PlaceOneOnlyWord(v: Variant, g: Grid, w: string, draws: seq<Attempt>)
    requires IsGrid(g)
    requires MaxAttempts <= |draws|
    requires DirsIn(v, draws)
    ensures var t := PlaceOne(v, g, w, draws);
      forall p :: InGrid(p) && At(g, p).None? && At(t.grid, p).Some? ==>
        t.spot.Some? && p in Positions(t.spot.value.start, t.spot.value.dir, |w|)
  {
  }

  /**
   * Every cell of `out` that holds a letter but was empty in g lies on the
   * path of a word that received a spot.
   */
  ghost predicate OnlyWords(g: Grid, words: seq<string>, out: Layout)
    requires IsGrid(g) && IsGrid(out.grid) && |out.spots| == |words|
  {
    forall p :: InGrid(p) && At(g, p).None? && At(out.grid, p).Some? ==> Covered(words, out.spots, p)
  }

  /** A cell covered by the later words, or by the first word's spot, is covered by all of them. */
  lemma {:induction false} CoveredCons(w: string, s: Option<Spot>, words: seq<string>, spots: seq<Option<Spot>>, p: Pos)
    requires |spots| == |words|
    requires Covered(words, spots, p) || (s.Some? && p in Positions(s.value.start, s.value.dir, |w|))
    ensures Covered([w] + words, [s] + spots, p)
  {
    var ws, ss := [w] + words, [s] + spots;
    if s.Some? && p in Positions(s.value.start, s.value.dir, |w|) {
      assert ws[0] == w && ss[0] == s;
    } else {
      var k :| 0 <= k < |words| && spots[k].Some? && p in Positions(spots[k].value.start, spots[k].value.dir, |words[k]|);
      assert ws[k + 1] == words[k] && ss[k + 1] == spots[k];
    }
  }

  /** One turn that writes only its word, followed by a layout that writes only its words. */
  lemma {:induction false} OnlyWordsCons(g: Grid, w: string, t: Turn, words: seq<string>, rest: Layout, used: nat)
    requires IsGrid(g) && IsGrid(t.grid) && IsGrid(rest.grid) && |rest.spots| == |words|
    requires Extends(t.grid, rest.grid)
    requires forall p :: InGrid(p) && At(g, p).None? && At(t.grid, p).Some? ==>
      t.spot.Some? && p in Positions(t.spot.value.start, t.spot.value.dir, |w|)
    requires OnlyWords(t.grid, words, rest)
    ensures OnlyWords(g, [w] + words, Layout(rest.grid, [t.spot] + rest.spots, used))
  {
    forall p | InGrid(p) && At(g, p).None? && At(rest.grid, p).Some?
      ensures Covered([w] + words, [t.spot] + rest.spots, p)
    {
      CoveredCons(w, t.spot, words, rest.spots, p);
    }
  }

  /**
   * The loop writes nothing but the placed words: every cell that holds a
   * letter in the final grid but was empty before lies on the path of a
   * placed word.
   */
  lemma {:induction false} PlaceAllOnlyWords(v: Variant, g: Grid, words: seq<string>, draws: seq<Attempt>)
    requires IsGrid(g)
    requires |draws| >= MaxAttempts * |words|
    requires DirsIn(v, draws)
    ensures OnlyWords(g, words, PlaceAll(v, g, words, draws))
    decreases |words|
  {
    if |words| > 0 {
      var t := PlaceOne(v, g, words[0], draws);
      var rest := PlaceAll(v, t.grid, words[1..], draws[t.used..]);
      assert words == [words[0]] + words[1..];
      PlaceAllOnlyWords(v, t.grid, words[1..], draws[t.used..]);
      PlaceOneOnlyWord(v, g, words[0], draws);
      OnlyWordsCons(g, words[0], t, words[1..], rest, t.used + rest.used);
    }
  }

  /** Every word that received a spot is admissible there and readable in the layout's grid. */
  ghost predicate Readable(v: Variant, words: seq<string>, out: Layout)
    requires IsGrid(out.grid) && |out.spots| == |words|
  {
    forall k :: 0 <= k < |words| && out.spots[k].Some? ==>
      Admissible(v, words[k], out.spots[k].value) &&
      Spells(out.grid, words[k], out.spots[k].value.start, out.spots[k].value.dir)
  }

  /** Prefixing one word, placed readably or dropped, to a readable layout keeps it readable. */
  lemma {:induction false} ReadableCons(v: Variant, w: string, s: Option<Spot>, words: seq<string>, rest: Layout, used: nat)
    requires IsGrid(rest.grid) && |rest.spots| == |words|
    requires Readable(v, words, rest)
    requires s.Some? ==> Admissible(v, w, s.value) && Spells(rest.grid, w, s.value.start, s.value.dir)
    ensures Readable(v, [w] + words, Layout(rest.grid, [s] + rest.spots, used))
  {
    var ws, out := [w] + words, Layout(rest.grid, [s] + rest.spots, used);
    forall j | 1 <= j < |ws| && out.spots[j].Some?
      ensures Admissible(v, ws[j], out.spots[j].value)
      ensures Spells(out.grid, ws[j], out.spots[j].value.start, out.spots[j].value.dir)
    {
      assert out.spots[j] == rest.spots[j - 1] && ws[j] == words[j - 1];
    }
  }

  /**
   * Every placed word got an admissible spot, and is still readable there in
   * the final grid, after all later words were written.
   */
  lemma {:induction false} PlaceAllSpells(v: Variant, g: Grid, words: seq<string>, draws: seq<Attempt>)
    requires IsGrid(g)
    requires |draws| >= MaxAttempts * |words|
    requires DirsIn(v, draws)
    ensures Readable(v, words, PlaceAll(v, g, words, draws))
    decreases |words|
  {
    if |words| > 0 {
      var w := words[0];
      assert words == [w] + words[1..];
      var t := PlaceOne(v, g, w, draws);
      var rest := PlaceAll(v, t.grid, words[1..], draws[t.used..]);
      PlaceAllSpells(v, t.grid, words[1..], draws[t.used..]);
      if t.spot.Some? {
        SpellsExtends(t.grid, rest.grid, w, t.spot.value.start, t.spot.value.dir);
      }
      ReadableCons(v, w, t.spot, words[1..], rest, t.used + rest.used);
    }
  }

  /**
   * The indices, from `from` on, of the words that received a spot: strictly
   * increasing, and containing every such index.
   */
  function PlacedIndices(spots: seq<Option<Spot>>, from: nat): (r: seq<nat>)
    requires from <= |spots|
    ensures forall j :: 0 <= j < |r| ==> from <= r[j] < |spots| && spots[r[j]].Some?
    ensures forall j, k :: 0 <= j < k < |r| ==> r[j] < r[k]
    ensures forall i :: from <= i < |spots| && spots[i].Some? ==> i in r
    decreases |spots| - from
  {
    if from == |spots| then []
    else if spots[from].Some? then [from] + PlacedIndices(spots, from + 1)
    else PlacedIndices(spots, from + 1)
  }

  /**
   * The words that were placed, in input order (`placedWords`): the word at
   * each placed index, in increasing index order.
   */
  function Kept(words: seq<string>, spots: seq<Option<Spot>>): (r: seq<string>)
    requires |spots| == |words|
    ensures |r| <= |words|
    ensures |r| == |PlacedIndices(spots, 0)|
    ensures forall j :: 0 <= j < |r| ==> r[j] == words[PlacedIndices(spots, 0)[j]]
  {
    var idx := PlacedIndices(spots, 0);
    PlacedIndicesBound(spots, 0);
    seq(|idx|, j requires 0 <= j < |idx| => words[idx[j]])
  }

  /** Strictly increasing indices below |spots| number at most |spots| - from. */
  lemma {:induction false} PlacedIndicesBound(spots: seq<Option<Spot>>, from: nat)
    requires from <= |spots|
    ensures |PlacedIndices(spots, from)| <= |spots| - from
    decreases |spots| - from
  {
    if from < |spots| {
      PlacedIndicesBound(spots, from + 1);
    }
  }

  /** The server never accepts a word of 15 or more letters, whatever the grid and start. */
  lemma {:induction false} ServerRejectsLong(g: Grid, w: string, r: int, c: int, d: Direction)
    requires IsGrid(g)
    requires d in Directions(Server)
    requires |w| >= Size
    ensures !ServerCanPlace(g, w, r, c, d)
  {
    ForwardStep(d);
    if d.dr == 1 {
      assert r + |w| * d.dr == r + |w|;
    } else {
      assert c + |w| * d.dc == c + |w|;
    }
  }

  /** Each server direction moves down or right (or both) by one. */
  lemma {:induction false} ForwardStep(d: Direction)
    requires d in Directions(Server)
    ensures 0 <= d.dr <= 1 && -1 <= d.dc <= 1
    ensures d.dr == 1 || d.dc == 1
  {
  }

  /**
   * Forward words never reach the last row or column: a word that moves down
   * stays above row 14, one that moves right stays left of column 14.
   */
  lemma {:induction false} ServerAvoidsLastLine(w: string, start: Pos, d: Direction, i: nat)
    requires ServerBound(w, start, d)
    requires d in Directions(Server)
    requires i < |w|
    ensures d.dr == 1 ==> Step(start, d, i).row < Size - 1
    ensures d.dc == 1 ==> Step(start, d, i).col < Size - 1
  {
    ForwardStep(d);
    if d.dr == 1 {
      assert start.row + |w| * d.dr == start.row + |w|;
      assert Step(start, d, i).row == start.row + i;
    }
    if d.dc == 1 {
      assert start.col + |w| * d.dc == start.col + |w|;
      assert Step(start, d, i).col == start.col + i;
    }
  }

  /** Whatever the server accepts, the browser's per-letter test accepts too. */
  lemma {:induction false} ServerImpliesClient(g: Grid, w: string, r: int, c: int, d: Direction)
    requires IsGrid(g)
    requires ServerCanPlace(g, w, r, c, d)
    ensures PathFits(g, w, Pos(r, c), d, 0)
  {
  }

  /**
   * The server's end-point test is one stricter than needed: a 15-letter
   * word along row 0 of an empty grid fits cell by cell, yet is refused.
   */
  lemma {:induction false} ServerStricterThanNeeded()
    ensures PathFits(EmptyGrid(), "ABCDEFGHIJKLMNO", Pos(0, 0), Delta(0, 1), 0)
    ensures !ServerCanPlace(EmptyGrid(), "ABCDEFGHIJKLMNO", 0, 0, Delta(0, 1))
  {
    var w := "ABCDEFGHIJKLMNO";
    var g := EmptyGrid();
    forall k | 0 <= k < |w|
      ensures Fits(g, Step(Pos(0, 0), Delta(0, 1), k), w[k])
    {
      assert Step(Pos(0, 0), Delta(0, 1), k) == Pos(0, k);
    }
    assert 0 + |w| * 1 == Size;
  }

  /** With the server's table, only words shorter than 15 ever receive a spot. */
  lemma {:induction false} ServerPlacesOnlyShortWords(g: Grid, words: seq<string>, draws: seq<Attempt>)
    requires IsGrid(g)
    requires |draws| >= MaxAttempts * |words|
    requires DirsIn(Server, draws)
    ensures forall k :: 0 <= k < |words| && PlaceAll(Server, g, words, draws).spots[k].Some? ==> |words[k]| < Size
  {
    var out := PlaceAll(Server, g, words, draws);
    PlaceAllSpells(Server, g, words, draws);
    forall k | 0 <= k < |words| && out.spots[k].Some?
      ensures |words[k]| < Size
    {
      ServerSpotShort(words[k], out.spots[k].value);
    }
  }
}
