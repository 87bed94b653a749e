/**
 * The browser word-search game (`WordSearchGame` in the word-search page
 * script) with its DOM, timers, sounds and network calls removed: choosing
 * and normalising the words, building the grid, the selection line, matching
 * a selection against the words, hints and the completion bonus.
 *
 * Grid cells are identified by their coordinates instead of DOM elements.
 * Every `Math.random` draw is an input, as in the server model; the elapsed
 * time `Math.floor((Date.now() - startTime) / 1000)` is an input too.
 */
module WordSearchClient {
  import opened Common
  import opened Text
  import opened Grids
  import opened Placement
  import GameGenerator

  /**
   * A word of the game. `positions` is `None` until a placement round
   * places the word; a later round that fails to place it keeps the old value.
   */
  datatype WordEntry = WordEntry(word: string, definition: string, originalTerm: string, positions: Option<seq<Pos>>)

  /** The game's state: grid, words, found words, score and hints used. */
  datatype Play = Play(grid: Grid, words: seq<WordEntry>, found: seq<string>, score: int, hintsUsed: nat)

  // ------------------------------------------------------------ the words

  /** `term.toUpperCase().replace(/\s+/g, '')`. */
  function Normalize(term: string): (w: string)
    ensures forall k :: 0 <= k < |w| ==> !IsJsSpace(w[k]) && !('a' <= w[k] <= 'z')
  {
    var u := UpperString(term);
    StripSpacesMembers(u);
    StripSpaces(u)
  }

  /**
   * Normalising distributes over concatenation; with `NormalizeChar` this
   * says the word is the term's characters upper-cased, white space
   * dropped, in their order.
   */
  lemma {:induction false} NormalizeConcat(a: string, b: string)
    ensures Normalize(a + b) == Normalize(a) + Normalize(b)
  {
    var ua, ub := UpperString(a), UpperString(b);
    assert UpperString(a + b) == ua + ub;
    StripSpacesConcat(ua, ub);
  }

  /** A single character becomes its capital, or nothing when it is white space. */
  lemma {:induction false} NormalizeChar(c: char)
    ensures Normalize([c]) == if IsJsSpace(c) then [] else [Upper(c)]
  {
    assert UpperString([c]) == [Upper(c)];
    StripSpacesChar(Upper(c));
  }

  /** A normalised word is its own normal form. */
  lemma {:induction false} NormalizeIdempotent(term: string)
    ensures Normalize(Normalize(term)) == Normalize(term)
  {
    var u := UpperString(term);
    var w := StripSpaces(u);
    StripSpacesMembers(u);
    forall k | 0 <= k < |w|
      ensures Upper(w[k]) == w[k]
    {
      var j :| 0 <= j < |u| && u[j] == w[k];
      UpperIdempotent(term[j]);
    }
    assert UpperString(w) == w;
    StripSpacesFixes(w);
  }

  /** The entry made for one term: its normalised word, no positions yet. */
  function EntryOf(t: GameGenerator.TermPair): WordEntry {
    WordEntry(Normalize(t.term), t.definition, t.term, None)
  }

  /**
   * `selectRandomTerms`: the terms in the order the random sort left them
   * (`shuffled`, any rearrangement of `terms`), cut to at most `maxCount`.
   */
  function SelectRandomTerms(terms: seq<GameGenerator.TermPair>, maxCount: nat, shuffled: seq<GameGenerator.TermPair>): (r: seq<WordEntry>)
    requires multiset(shuffled) == multiset(terms)
    ensures |r| == Min(maxCount, |terms|)
    ensures forall i :: 0 <= i < |r| ==>
      && r[i].word == Normalize(r[i].originalTerm)
      && r[i].positions.None?
      && GameGenerator.TermPair(r[i].originalTerm, r[i].definition) in terms
    ensures |r| <= |shuffled| && forall i :: 0 <= i < |r| ==> r[i] == EntryOf(shuffled[i])
  {
    assert |shuffled| == |multiset(shuffled)| == |terms|;
    var n := Min(maxCount, |terms|);
    forall i | 0 <= i < n
      ensures shuffled[i] in terms
    {
      assert shuffled[i] in multiset(shuffled);
    }
    seq(n, i requires 0 <= i < n => EntryOf(shuffled[i]))
  }

  /** The term an entry was made from. */
  function PairOf(e: WordEntry): GameGenerator.TermPair {
    GameGenerator.TermPair(e.originalTerm, e.definition)
  }

  /**
   * The chosen entries come from distinct places of the sorted array: as a
   * multiset their terms are contained in the input's terms, so a term is
   * chosen at most as often as it occurs.
   */
  lemma {:induction false} SelectRandomTermsSubmultiset(terms: seq<GameGenerator.TermPair>, maxCount: nat, shuffled: seq<GameGenerator.TermPair>)
    requires multiset(shuffled) == multiset(terms)
    ensures multiset(Map(PairOf, SelectRandomTerms(terms, maxCount, shuffled))) <= multiset(terms)
  {
    var r := SelectRandomTerms(terms, maxCount, shuffled);
    var n := |r|;
    assert Map(PairOf, r) == shuffled[..n];
    assert shuffled == shuffled[..n] + shuffled[n..];
    assert multiset(shuffled) == multiset(shuffled[..n]) + multiset(shuffled[n..]);
  }

  // ------------------------------------------------------------- the grid

  function WordsOf(ws: seq<WordEntry>): (r: seq<string>)
    ensures |r| == |ws|
    ensures forall i :: 0 <= i < |ws| ==> r[i] == ws[i].word
  {
    seq(|ws|, i requires 0 <= i < |ws| => ws[i].word)
  }

  /** Valid placement draws for n words: 100 attempts each, directions among the eight. */
  predicate PlacementDraws(n: nat, attempts: seq<Attempt>) {
    |attempts| >= MaxAttempts * n && DirsIn(Client, attempts)
  }

  /** The placement loop of `placeWords` on a fresh grid (`createGrid`). */
  function ClientLayout(ws: seq<WordEntry>, attempts: seq<Attempt>): (out: Layout)
    requires PlacementDraws(|ws|, attempts)
    ensures IsGrid(out.grid) && |out.spots| == |ws|
  {
    PlaceAll(Client, EmptyGrid(), WordsOf(ws), attempts)
  }

  /** The cells a word covers from a spot (`getWordPositions`). */
  function SpotCells(w: string, s: Spot): seq<Pos> {
    Positions(s.start, s.dir, |w|)
  }

  /**
   * `wordObj.positions = getWordPositions(...)` for every word that was
   * placed; a word that was not placed keeps its entry as it was.
   */
  function WithPositions(ws: seq<WordEntry>, spots: seq<Option<Spot>>): (r: seq<WordEntry>)
    requires |spots| == |ws|
    ensures |r| == |ws|
    ensures forall i :: 0 <= i < |ws| ==>
      && r[i].word == ws[i].word && r[i].definition == ws[i].definition && r[i].originalTerm == ws[i].originalTerm
      && (spots[i].None? ==> r[i] == ws[i])
      && (spots[i].Some? ==> r[i].positions == Some(SpotCells(ws[i].word, spots[i].value)))
  {
    seq(|ws|, i requires 0 <= i < |ws| =>
      if spots[i].Some? then ws[i].(positions := Some(SpotCells(ws[i].word, spots[i].value))) else ws[i])
  }

  /** Valid draws for a new game of n words: placement attempts and 225 fill letters. */
  predicate NewGameDraws(n: nat, attempts: seq<Attempt>, letters: seq<LetterDraw>) {
    PlacementDraws(n, attempts) && |letters| >= Size * Size
  }

  /**
   * The found words are distinct words of the game, the grid is 15×15, and
   * the score is not negative.
   */
  ghost predicate Valid(s: Play) {
    && IsGrid(s.grid)
    && Distinct(s.found)
    && (forall k :: 0 <= k < |s.found| ==> s.found[k] in WordsOf(s.words))
    && s.score >= 0
  }

  /**
   * `startNewGame`: nothing found, score and hints reset, a fresh grid with
   * the words placed (`placeWords`) and the rest filled (`fillEmptyCells`).
   */
  function StartNewGame(ws: seq<WordEntry>, attempts: seq<Attempt>, letters: seq<LetterDraw>): (s: Play)
    requires NewGameDraws(|ws|, attempts, letters)
    ensures Valid(s)
    ensures |s.words| == |ws|
    ensures s.found == [] && s.score == 0 && s.hintsUsed == 0
  {
    var layout := ClientLayout(ws, attempts);
    Play(FillEmpty(layout.grid, letters), WithPositions(ws, layout.spots), [], 0, 0)
  }

  /**
   * After a new game no cell is empty, and every word placed in this round
   * can be read along its positions: one cell per letter, inside the grid,
   * each holding that letter.
   */
  lemma {:induction false} NewGameReadable(ws: seq<WordEntry>, attempts: seq<Attempt>, letters: seq<LetterDraw>, i: nat)
    requires NewGameDraws(|ws|, attempts, letters)
    requires i < |ws|
    ensures Complete(StartNewGame(ws, attempts, letters).grid)
    ensures ClientLayout(ws, attempts).spots[i].Some? ==>
      var s := StartNewGame(ws, attempts, letters);
      && s.words[i].positions.Some?
      && |s.words[i].positions.value| == |ws[i].word|
      && forall k :: 0 <= k < |ws[i].word| ==>
           InGrid(s.words[i].positions.value[k]) && At(s.grid, s.words[i].positions.value[k]) == Some(ws[i].word[k])
  {
    var layout := ClientLayout(ws, attempts);
    FillEmptyFills(layout.grid, letters);
    if layout.spots[i].Some? {
      var g := StartNewGame(ws, attempts, letters).grid;
      var w := WordsOf(ws)[i];
      var sp := layout.spots[i].value;
      PlaceAllSpells(Client, EmptyGrid(), WordsOf(ws), attempts);
      SpellsExtends(layout.grid, g, w, sp.start, sp.dir);
    }
  }

  // -------------------------------------------------------- the selection

  function Abs(x: int): nat {
    if x < 0 then -x else x
  }

  /**
   * `from + Math.round(i * step)` where the step is the sign of `to - from`:
   * i cells from `from` towards `to`.
   */
  function Toward(from: int, to: int, i: int): int {
    if to > from then from + i else if to < from then from - i else from
  }

  /** The drag from `start` to `end` is horizontal, vertical or diagonal. */
  predicate IsLine(start: Pos, end: Pos) {
    var rd, cd := end.row - start.row, end.col - start.col;
    rd == 0 || cd == 0 || Abs(rd) == Abs(cd)
  }

  /** The number of steps of a line drag: `Math.max(|rowDiff|, |colDiff|)`. */
  function LineSteps(start: Pos, end: Pos): nat {
    Max(Abs(end.row - start.row), Abs(end.col - start.col))
  }

  /** The i-th cell of a line drag, `i` unit steps from the start towards the end. */
  function LineCell(start: Pos, end: Pos, i: int): Pos {
    Pos(Toward(start.row, end.row, i), Toward(start.col, end.col, i))
  }

  /**
   * `getCellsInLine`: for a line drag, every cell from the start to the end
   * inclusive, one unit step apart; for any other drag, just the start.
   */
  function GetCellsInLine(start: Pos, end: Pos): (r: seq<Pos>)
    ensures IsLine(start, end) ==> |r| == LineSteps(start, end) + 1 && r[0] == start && r[|r| - 1] == end
    ensures !IsLine(start, end) ==> r == [start]
    ensures InGrid(start) && InGrid(end) ==> forall i :: 0 <= i < |r| ==> InGrid(r[i])
  {
    if IsLine(start, end) then
      var n := LineSteps(start, end);
      assert LineCell(start, end, n) == end;
      LineCellsInGrid(start, end);
      seq(n + 1, i requires 0 <= i <= n => LineCell(start, end, i))
    else [start]
  }

  /** Consecutive cells of a drag are neighbours: each moves at most one row and one column. */
  lemma {:induction false} GetCellsInLineAdjacent(start: Pos, end: Pos)
    ensures var r := GetCellsInLine(start, end);
      forall i :: 0 < i < |r| ==> Abs(r[i].row - r[i - 1].row) <= 1 && Abs(r[i].col - r[i - 1].col) <= 1
  {
    var r := GetCellsInLine(start, end);
    if IsLine(start, end) {
      forall i | 0 < i < |r|
        ensures Abs(r[i].row - r[i - 1].row) <= 1 && Abs(r[i].col - r[i - 1].col) <= 1
      {
        assert r[i] == LineCell(start, end, i) && r[i - 1] == LineCell(start, end, i - 1);
      }
    }
  }

  /** The cells of a line drag lie between its ends, so inside the grid when the ends are. */
  lemma {:induction false} LineCellsInGrid(start: Pos, end: Pos)
    ensures InGrid(start) && InGrid(end) && IsLine(start, end) ==>
      forall i :: 0 <= i <= LineSteps(start, end) ==> InGrid(LineCell(start, end, i))
  {
  }

  /** Along one axis of a line drag, i cells back from the end is n - i cells on from the start. */
  lemma {:induction false} TowardReversed(a: int, b: int, n: nat, i: int)
    requires a == b || Abs(b - a) == n
    ensures Toward(b, a, i) == Toward(a, b, n - i)
  {
  }

  /** Each axis of a line drag moves by nothing or by the full number of steps. */
  lemma {:induction false} LineAxes(start: Pos, end: Pos)
    requires IsLine(start, end)
    ensures var n := LineSteps(start, end);
      && (start.row == end.row || Abs(end.row - start.row) == n)
      && (start.col == end.col || Abs(end.col - start.col) == n)
  {
  }

  /** The i-th cell of the drag back from the end is the (n - i)-th cell of the drag from the start. */
  lemma {:induction false} LineCellReversed(start: Pos, end: Pos, i: int)
    requires IsLine(start, end)
    ensures LineCell(end, start, i) == LineCell(start, end, LineSteps(start, end) - i)
  {
    var n := LineSteps(start, end);
    LineAxes(start, end);
    TowardReversed(start.row, end.row, n, i);
    TowardReversed(start.col, end.col, n, i);
  }

  /** Dragging back from the end gives the same cells in the opposite order. */
  lemma {:induction false} GetCellsInLineReversed(start: Pos, end: Pos)
    requires IsLine(start, end)
    ensures GetCellsInLine(end, start) == Reverse(GetCellsInLine(start, end))
  {
    var r, q := GetCellsInLine(start, end), GetCellsInLine(end, start);
    var n := LineSteps(start, end);
    assert IsLine(end, start) && LineSteps(end, start) == n;
    forall i | 0 <= i <= n
      ensures q[i] == Reverse(r)[i]
    {
      LineCellReversed(start, end, i);
    }
  }

  /** Moving m >= 1 unit steps along one axis and back: i cells towards the end is i steps. */
  lemma {:induction false} TowardUnit(a: int, dd: int, m: nat, i: int)
    requires -1 <= dd <= 1 && m >= 1
    ensures Toward(a, a + m * dd, i) == a + i * dd
    ensures Abs(m * dd) == if dd == 0 then 0 else m
  {
    if dd == 1 {
      assert m * dd == m;
    } else if dd == -1 {
      assert m * dd + m == 0;
    } else {
      assert m * dd == 0;
    }
  }

  /**
   * A drag from the first to the last cell of a word's positions selects
   * exactly those positions.
   */
  lemma {:induction false} LineThroughPositions(start: Pos, d: Direction, n: nat)
    requires n >= 1
    requires forall k :: 0 <= k < n ==> InGrid(Step(start, d, k))
    ensures var ps := Positions(start, d, n);
      GetCellsInLine(ps[0], ps[n - 1]) == ps
  {
    var ps := Positions(start, d, n);
    var end := ps[n - 1];
    assert ps[0] == start;
    var r := GetCellsInLine(start, end);
    if n == 1 {
      assert end == start;
      assert LineSteps(start, end) == 0;
    } else {
      var m := n - 1;
      assert end == Pos(start.row + m * d.dr, start.col + m * d.dc);
      forall i | 0 <= i < n
        ensures LineCell(start, end, i) == Step(start, d, i)
      {
        TowardUnit(start.row, d.dr, m, i);
        TowardUnit(start.col, d.dc, m, i);
      }
      TowardUnit(start.row, d.dr, m, 0);
      TowardUnit(start.col, d.dc, m, 0);
      assert IsLine(start, end);
      assert LineSteps(start, end) == m;
      forall i | 0 <= i < n
        ensures r[i] == ps[i]
      {
        assert r[i] == LineCell(start, end, i);
      }
    }
  }

  /** The text a cell shows: its letter, or nothing for an empty cell. */
  function CellText(c: Cell): string {
    if c.Some? then [c.value] else []
  }

  /** The text of the cell at p; a coordinate with no cell in the grid shows nothing. */
  function TextAt(g: Grid, p: Pos): string
    requires IsGrid(g)
  {
    if InGrid(p) then CellText(At(g, p)) else []
  }

  /** `selectedCells.map(cell => cell.textContent).join('')`. */
  function SelectionText(g: Grid, cells: seq<Pos>): (r: string)
    requires IsGrid(g)
    ensures |r| <= |cells|
  {
    if |cells| == 0 then [] else TextAt(g, cells[0]) + SelectionText(g, cells[1..])
  }

  /** Cells holding the letters of w, one each, read back as w. */
  lemma {:induction false} SelectionSpells(g: Grid, cells: seq<Pos>, w: string)
    requires IsGrid(g)
    requires |cells| == |w|
    requires forall k :: 0 <= k < |cells| ==> InGrid(cells[k]) && At(g, cells[k]) == Some(w[k])
    ensures SelectionText(g, cells) == w
  {
    if |cells| > 0 {
      SelectionSpells(g, cells[1..], w[1..]);
      assert w == [w[0]] + w[1..];
    }
  }

  // ---------------------------------------------------------- the matching

  /** Entry word w is matched by the selection: it reads w either way and w is not yet found. */
  predicate Matches(w: string, found: seq<string>, sel: string) {
    (w == sel || w == Reverse(sel)) && w !in found
  }

  /** The first entry from index k on that the selection matches. */
  function FirstMatch(ws: seq<WordEntry>, found: seq<string>, sel: string, k: nat): (r: Option<nat>)
    requires k <= |ws|
    ensures r.Some? ==> k <= r.value < |ws| && Matches(ws[r.value].word, found, sel)
    ensures r.Some? ==> forall j :: k <= j < r.value ==> !Matches(ws[j].word, found, sel)
    ensures r.None? ==> forall j :: k <= j < |ws| ==> !Matches(ws[j].word, found, sel)
    decreases |ws| - k
  {
    if k == |ws| then None
    else if Matches(ws[k].word, found, sel) then Some(k)
    else FirstMatch(ws, found, sel, k + 1)
  }

  /** `Math.max(0, 300 - elapsed) * 2`, added when the last word is found (`gameComplete`). */
  function CompletionBonus(elapsed: int): (b: nat)
    ensures elapsed >= 300 ==> b == 0
    ensures elapsed <= 300 ==> b == 2 * (300 - elapsed)
  {
    Max(0, 300 - elapsed) * 2
  }

  /**
   * `checkSelectedWord`: the first entry whose word equals the selection or
   * its reverse and is not yet found is added to the found words and scores
   * 10 points per letter, plus the completion bonus if it was the last word;
   * with no such entry nothing changes.
   */
  function CheckSelectedWord(s: Play, sel: string, elapsed: int): (r: Play)
    ensures r.grid == s.grid && r.words == s.words && r.hintsUsed == s.hintsUsed
    ensures |s.found| <= |r.found| <= |s.found| + 1
  {
    match FirstMatch(s.words, s.found, sel, 0)
    case None => s
    case Some(i) =>
      var w := s.words[i].word;
      var found := s.found + [w];
      var score := s.score + 10 * |w|;
      s.(found := found, score := if |found| == |s.words| then score + CompletionBonus(elapsed) else score)
  }

  /**
   * The step from s to r finds word w: w is appended to the found words and
   * the score rises by 10 per letter, plus the completion bonus when every
   * word is now found.
   */
  ghost predicate Adds(s: Play, r: Play, w: string, elapsed: int) {
    && r.found == s.found + [w]
    && r.score == s.score + 10 * |w| + (if |r.found| == |s.words| then CompletionBonus(elapsed) else 0)
  }

  /**
   * A selection that matches no entry changes nothing; one that matches some
   * entry adds the word of a matching entry.
   */
  lemma {:induction false} CheckSelectedWordSpec(s: Play, sel: string, elapsed: int)
    ensures (forall j :: 0 <= j < |s.words| ==> !Matches(s.words[j].word, s.found, sel)) ==>
      CheckSelectedWord(s, sel, elapsed) == s
    ensures (exists j :: 0 <= j < |s.words| && Matches(s.words[j].word, s.found, sel)) ==>
      exists j :: 0 <= j < |s.words| && Matches(s.words[j].word, s.found, sel) &&
        Adds(s, CheckSelectedWord(s, sel, elapsed), s.words[j].word, elapsed)
  {
    match FirstMatch(s.words, s.found, sel, 0)
    case None =>
    case Some(i) =>
      assert Adds(s, CheckSelectedWord(s, sel, elapsed), s.words[i].word, elapsed);
  }

  /** Selecting a word backwards has the same effect as selecting it forwards. */
  lemma {:induction false} CheckSelectedWordReversed(s: Play, sel: string, elapsed: int)
    ensures CheckSelectedWord(s, Reverse(sel), elapsed) == CheckSelectedWord(s, sel, elapsed)
  {
    ReverseInvolution(sel);
    FirstMatchReversed(s.words, s.found, sel, 0);
  }

  lemma {:induction false} FirstMatchReversed(ws: seq<WordEntry>, found: seq<string>, sel: string, k: nat)
    requires k <= |ws|
    requires Reverse(Reverse(sel)) == sel
    ensures FirstMatch(ws, found, Reverse(sel), k) == FirstMatch(ws, found, sel, k)
    decreases |ws| - k
  {
    if k < |ws| {
      FirstMatchReversed(ws, found, sel, k + 1);
    }
  }

  /** Matching keeps the state valid: the found words stay distinct words of the game. */
  lemma {:induction false} CheckSelectedWordValid(s: Play, sel: string, elapsed: int)
    requires Valid(s)
    ensures Valid(CheckSelectedWord(s, sel, elapsed))
  {
    var r := CheckSelectedWord(s, sel, elapsed);
    CheckSelectedWordSpec(s, sel, elapsed);
    if exists j :: 0 <= j < |s.words| && Matches(s.words[j].word, s.found, sel) {
      var j :| 0 <= j < |s.words| && Matches(s.words[j].word, s.found, sel) && Adds(s, r, s.words[j].word, elapsed);
      assert WordsOf(s.words)[j] == s.words[j].word;
      forall a, b | 0 <= a < b < |r.found|
        ensures r.found[a] != r.found[b]
      {
        if b == |s.found| {
          assert r.found[a] == s.found[a];
        }
      }
      forall k | 0 <= k < |r.found|
        ensures r.found[k] in WordsOf(r.words)
      {
        if k < |s.found| {
          assert r.found[k] == s.found[k];
        }
      }
    }
  }

  /** The selection made by dragging from `start` to `end`, then matched. */
  function CheckSelection(s: Play, start: Pos, end: Pos, elapsed: int): (r: Play)
    requires IsGrid(s.grid)
    ensures r.grid == s.grid && r.words == s.words && r.hintsUsed == s.hintsUsed
  {
    CheckSelectedWord(s, SelectionText(s.grid, GetCellsInLine(start, end)), elapsed)
  }

  /**
   * Dragging over the cells ps, from the first to the last or back, finds
   * one more word, which reads as w forwards or backwards.
   */
  ghost predicate DragAdds(s: Play, w: string, ps: seq<Pos>, backwards: bool, elapsed: int)
    requires IsGrid(s.grid) && |ps| >= 1
  {
    var r := if backwards then CheckSelection(s, ps[|ps| - 1], ps[0], elapsed) else CheckSelection(s, ps[0], ps[|ps| - 1], elapsed);
    exists x :: (x == w || x == Reverse(w)) && Adds(s, r, x, elapsed)
  }

  /** The positions of a word the grid spells hold its letters, one each. */
  lemma {:induction false} PositionsSpell(g: Grid, w: string, start: Pos, d: Direction)
    requires IsGrid(g)
    requires forall k :: 0 <= k < |w| ==> InGrid(Step(start, d, k)) && At(g, Step(start, d, k)) == Some(w[k])
    ensures var ps := Positions(start, d, |w|);
      forall k :: 0 <= k < |w| ==> InGrid(ps[k]) && At(g, ps[k]) == Some(w[k])
  {
  }

  /** Dragging from the first letter of a word the grid spells to its last reads the word. */
  lemma {:induction false} DragForwardText(g: Grid, w: string, start: Pos, d: Direction)
    requires IsGrid(g) && |w| >= 1
    requires forall k :: 0 <= k < |w| ==> InGrid(Step(start, d, k)) && At(g, Step(start, d, k)) == Some(w[k])
    ensures var ps := Positions(start, d, |w|);
      SelectionText(g, GetCellsInLine(ps[0], ps[|w| - 1])) == w
  {
    var ps := Positions(start, d, |w|);
    PositionsSpell(g, w, start, d);
    LineThroughPositions(start, d, |w|);
    SelectionSpells(g, ps, w);
  }

  /** Cells holding the letters of w, read in the opposite order, spell w backwards. */
  lemma {:induction false} SelectionSpellsReversed(g: Grid, cells: seq<Pos>, w: string)
    requires IsGrid(g)
    requires |cells| == |w|
    requires forall k :: 0 <= k < |cells| ==> InGrid(cells[k]) && At(g, cells[k]) == Some(w[k])
    ensures SelectionText(g, Reverse(cells)) == Reverse(w)
  {
    var rc, rw := Reverse(cells), Reverse(w);
    forall k | 0 <= k < |w|
      ensures InGrid(rc[k]) && At(g, rc[k]) == Some(rw[k])
    {
      assert rc[k] == cells[|w| - 1 - k] && rw[k] == w[|w| - 1 - k];
    }
    SelectionSpells(g, rc, rw);
  }

  /** Dragging from the last letter of a word the grid spells to its first reads the word backwards. */
  lemma {:induction false} DragBackwardText(g: Grid, w: string, start: Pos, d: Direction)
    requires IsGrid(g) && |w| >= 1
    requires forall k :: 0 <= k < |w| ==> InGrid(Step(start, d, k)) && At(g, Step(start, d, k)) == Some(w[k])
    ensures var ps := Positions(start, d, |w|);
      SelectionText(g, GetCellsInLine(ps[|w| - 1], ps[0])) == Reverse(w)
  {
    var ps := Positions(start, d, |w|);
    PositionsSpell(g, w, start, d);
    LineThroughPositions(start, d, |w|);
    assert IsLine(ps[0], ps[|w| - 1]);
    GetCellsInLineReversed(ps[0], ps[|w| - 1]);
    SelectionSpellsReversed(g, ps, w);
  }

  /**
   * A selection some unfound entry matches adds the word of the first
   * matching entry.
   */
  lemma {:induction false} MatchAdds(s: Play, sel: string, i: nat, elapsed: int)
    requires i < |s.words| && Matches(s.words[i].word, s.found, sel)
    ensures FirstMatch(s.words, s.found, sel, 0).Some?
    ensures var j := FirstMatch(s.words, s.found, sel, 0).value;
      Matches(s.words[j].word, s.found, sel) && Adds(s, CheckSelectedWord(s, sel, elapsed), s.words[j].word, elapsed)
  {
  }

  /**
   * Dragging over an unfound word of the game that the grid spells along
   * its positions, from its first letter to its last or back, finds one more
   * word, which reads as that word forwards or backwards.
   */
  lemma {:induction false} DragFinds(s: Play, i: nat, start: Pos, d: Direction, backwards: bool, elapsed: int)
    requires IsGrid(s.grid)
    requires i < |s.words| && s.words[i].word !in s.found && |s.words[i].word| >= 1
    requires var w := s.words[i].word;
      forall k :: 0 <= k < |w| ==> InGrid(Step(start, d, k)) && At(s.grid, Step(start, d, k)) == Some(w[k])
    ensures DragAdds(s, s.words[i].word, Positions(start, d, |s.words[i].word|), backwards, elapsed)
  {
    var w := s.words[i].word;
    var ps := Positions(start, d, |w|);
    var sel := if backwards then Reverse(w) else w;
    if backwards {
      DragBackwardText(s.grid, w, start, d);
      assert SelectionText(s.grid, GetCellsInLine(ps[|ps| - 1], ps[0])) == sel;
    } else {
      DragForwardText(s.grid, w, start, d);
      assert SelectionText(s.grid, GetCellsInLine(ps[0], ps[|ps| - 1])) == sel;
    }
    ReverseInvolution(w);
    MatchAdds(s, sel, i, elapsed);
    var r := CheckSelectedWord(s, sel, elapsed);
    var x := s.words[FirstMatch(s.words, s.found, sel, 0).value].word;
    assert x == w || x == Reverse(w);
    assert Adds(s, r, x, elapsed);
  }

  /**
   * In a new game every word placed in this round, when not empty, is found
   * by dragging over its positions, forwards or backwards.
   */
  lemma {:induction false} NewGameFindable(ws: seq<WordEntry>, attempts: seq<Attempt>, letters: seq<LetterDraw>, i: nat, backwards: bool, elapsed: int)
    requires NewGameDraws(|ws|, attempts, letters)
    requires i < |ws| && |ws[i].word| >= 1
    ensures ClientLayout(ws, attempts).spots[i].Some? ==>
      var s := StartNewGame(ws, attempts, letters);
      var sp := ClientLayout(ws, attempts).spots[i].value;
      var ps := Positions(sp.start, sp.dir, |ws[i].word|);
      && s.words[i].positions == Some(ps)
      && DragAdds(s, ws[i].word, ps, backwards, elapsed)
  {
    if ClientLayout(ws, attempts).spots[i].Some? {
      var s := StartNewGame(ws, attempts, letters);
      var sp := ClientLayout(ws, attempts).spots[i].value;
      var w := ws[i].word;
      var ps := Positions(sp.start, sp.dir, |w|);
      NewGameReadable(ws, attempts, letters, i);
      forall k | 0 <= k < |w|
        ensures InGrid(Step(sp.start, sp.dir, k)) && At(s.grid, Step(sp.start, sp.dir, k)) == Some(w[k])
      {
        assert ps[k] == Step(sp.start, sp.dir, k);
      }
      DragFinds(s, i, sp.start, sp.dir, backwards, elapsed);
    }
  }

  // ------------------------------------------------------ hints and score

  /** `words.filter(w => !foundWords.includes(w.word))`. */
  function Unfound(ws: seq<WordEntry>, found: seq<string>): (r: seq<WordEntry>)
    ensures |r| <= |ws|
    ensures forall k :: 0 <= k < |r| ==> r[k] in ws && r[k].word !in found
    ensures |r| == 0 <==> forall j :: 0 <= j < |ws| ==> ws[j].word in found
    ensures forall k :: 0 <= k < |ws| && ws[k].word !in found ==> ws[k] in r
  {
    if |ws| == 0 then []
    else
      assert forall k :: 1 <= k < |ws| ==> ws[k] == ws[1..][k - 1];
      if ws[0].word in found then Unfound(ws[1..], found)
      else [ws[0]] + Unfound(ws[1..], found)
  }

  /**
   * The filter distributes over concatenation; with `UnfoundOne` this says
   * the unfound entries keep their order.
   */
  lemma {:induction false} UnfoundConcat(a: seq<WordEntry>, b: seq<WordEntry>, found: seq<string>)
    ensures Unfound(a + b, found) == Unfound(a, found) + Unfound(b, found)
    decreases |a|
  {
    if |a| == 0 {
      assert a + b == b;
    } else {
      UnfoundConcat(a[1..], b, found);
      UnfoundConcatStep(a, b, found);
    }
  }

  /** The inductive step of `UnfoundConcat`: from the tail of a to the whole of a. */
  lemma {:induction false} UnfoundConcatStep(a: seq<WordEntry>, b: seq<WordEntry>, found: seq<string>)
    requires |a| > 0
    requires Unfound(a[1..] + b, found) == Unfound(a[1..], found) + Unfound(b, found)
    ensures Unfound(a + b, found) == Unfound(a, found) + Unfound(b, found)
  {
    var head := if a[0].word in found then [] else [a[0]];
    UnfoundUnfoldAppend(a, b, found);
    ConcatAssoc(head, Unfound(a[1..], found), Unfound(b, found));
  }

  /** One step of the filter over a + b, with a not empty. */
  lemma {:induction false} UnfoundUnfoldAppend(a: seq<WordEntry>, b: seq<WordEntry>, found: seq<string>)
    requires |a| > 0
    ensures Unfound(a + b, found) == (if a[0].word in found then [] else [a[0]]) + Unfound(a[1..] + b, found)
  {
    assert (a + b)[0] == a[0] && (a + b)[1..] == a[1..] + b;
  }

  /** A single entry is kept exactly when its word is not found. */
  lemma {:induction false} UnfoundOne(e: WordEntry, found: seq<string>)
    ensures Unfound([e], found) == if e.word in found then [] else [e]
  {
    assert [e][1..] == [];
  }

  /**
   * `showHint`, counters only: with every word found nothing changes;
   * otherwise the entry `pick` of the unfound words is hinted, costing one
   * hint and 50 points, never going below zero. An entry with no recorded
   * first position makes the source throw before the counters move, so the
   * state is unchanged.
   */
  function ShowHint(s: Play, pick: nat): (r: Play)
    requires |Unfound(s.words, s.found)| > 0 ==> pick < |Unfound(s.words, s.found)|
    ensures r.grid == s.grid && r.words == s.words && r.found == s.found
    ensures |Unfound(s.words, s.found)| == 0 ==> r == s
    ensures var u := Unfound(s.words, s.found);
      |u| > 0 && u[pick].positions.Some? && |u[pick].positions.value| > 0 ==>
        r == s.(hintsUsed := s.hintsUsed + 1, score := Max(0, s.score - 50))
    ensures var u := Unfound(s.words, s.found);
      !(|u| > 0 && u[pick].positions.Some? && |u[pick].positions.value| > 0) ==> r == s
    ensures s.score >= 0 ==> 0 <= r.score <= s.score
  {
    var unfound := Unfound(s.words, s.found);
    if |unfound| == 0 then s
    else
      var hinted := unfound[pick];
      if hinted.positions.None? || |hinted.positions.value| == 0 then s
      else s.(hintsUsed := s.hintsUsed + 1, score := Max(0, s.score - 50))
  }

  /** Hints keep the state valid. */
  lemma {:induction false} ShowHintValid(s: Play, pick: nat)
    requires Valid(s)
    requires |Unfound(s.words, s.found)| > 0 ==> pick < |Unfound(s.words, s.found)|
    ensures Valid(ShowHint(s, pick))
  {
  }
}
