# Game generation, scoring and the word-search game, modelled in Dafny

This project models the game logic of a study site where users store terms
with their definitions and play four games with them:

- memory, pairing each term card with its definition card;
- association, matching terms to definitions;
- a multiple-choice quiz;
- a word search.

Two components are modelled.

**The server's `GameGenerator`** (`backend/gameGenerator.js`):

- the Fisher–Yates `shuffleArray`;
- the four builders: memory cards, association lists, quiz questions, and the
  word-search grid with its bounded-retry placement and random fill;
- the `generateGame` dispatch;
- the four score formulas and the `calculateScore` dispatch.

**The browser's `WordSearchGame`**
(`frontend/terms-and-definitions/word-search/script.js`):

- choosing and normalising the words;
- building the 15×15 grid: placement in eight directions, word positions and
  the fill;
- the geometry of a dragged selection;
- matching a selection against the words, forwards or backwards;
- the hint penalty and the completion bonus.

Everything is a pure function over immutable values:

- The grid is `seq<seq<Option<char>>>`. `None` is the empty string the grids
  start with.
- A thrown `Error` is a `Fail(message)` result.
- Every `Math.random` draw is an explicit input:
  - a shuffle's swap indices (`js[k]` is the index drawn in the k-th
    iteration, at most `n - 1 - k`);
  - placement attempts (start row, start column, direction index), consumed
    as one stream by the words in turn;
  - fill letters (alphabet indices), consumed only by empty cells, in
    row-major order;
  - the order left by the browser's random sort;
  - the word a hint picks.
- The elapsed time in whole seconds is an input too.

Every property therefore holds for all draw sequences.

The server and browser placement loops share one engine (`Placement`). It is
parameterised by the direction table and the acceptance test of each side. On
the server, the spot where each word went is kept in the model's `Layout`
next to the grid, although the server does not return it. This is what the
readability properties are stated about.

Modules:

| file | module | contents |
|---|---|---|
| common.dfy | Common | `Option`, `Result`, `Reverse`, `Map`, `Distinct`, counting lemmas |
| shuffling.dfy | Shuffling | `shuffleArray` |
| text.dfy | Text | `${index}` rendering, `toUpperCase`, the `\s` class, space stripping |
| grids.dfy | Grids | cells, directions, word paths, the per-letter test, writing a word, the fill |
| placement.dfy | Placement | bounded-retry placement for both engines; the server's `canPlaceWord` |
| game_generator.dfy | GameGenerator | the four builders and `generateGame` |
| scoring.dfy | Scoring | the four score formulas and `calculateScore` |
| word_search_client.dfy | WordSearchClient | the browser word-search game |

All eight files form one program and are verified together, for example with
`dafny verify --resource-limit 2000000 --warn-contradictory-assumptions *.dfy`
under Dafny 4.11.

## Model

| member | source | states |
|---|---|---|
| Shuffling.Swap | backend/gameGenerator.js:9 | the two positions exchange their elements; every other position keeps its element |
| Shuffling.Shuffle | backend/gameGenerator.js:5-12 | the shuffle has the input's length; inputs of at most one element come back unchanged |
| Shuffling.ShuffleDownPermutes | backend/gameGenerator.js:7-10 | every prefix of the swap loop keeps the multiset of elements |
| Shuffling.ShufflePermutes | backend/gameGenerator.js:5-12 | the shuffle is a permutation: same multiset as the input |
| Shuffling.ShuffleDistinct | backend/gameGenerator.js:5-12 | a shuffle of distinct elements has distinct elements |
| Shuffling.ShuffleMembers | backend/gameGenerator.js:5-12 | every output element is an input element and every input element appears in the output |
| Shuffling.ShuffleMap | backend/gameGenerator.js:5-12 | with the same draws, shuffling then mapping equals mapping then shuffling |
| Shuffling.ShuffleKeepsCounts | backend/gameGenerator.js:5-12 | the shuffle keeps how often each mapped value (pair id, card face) occurs |
| Shuffling.ShuffleKeepsAll | backend/gameGenerator.js:5-12 | a property every input element has, every output element has |
| Common.Reverse | frontend/terms-and-definitions/word-search/script.js:294 | the reverse has the same length and element i is element n-1-i of the input |
| Common.ReverseInvolution | frontend/terms-and-definitions/word-search/script.js:294 | reversing twice gives the original string back |
| Text.ShowNat | backend/gameGenerator.js:24 | the decimal rendering is non-empty, all digits, and has two or more digits exactly from 10 on |
| Text.ShowNatInjective | backend/gameGenerator.js:24 | different indices render differently |
| Text.Upper | backend/gameGenerator.js:180 | `a`–`z` and the Latin-1 lower-case letters (except ÷) become the capital 32 code points below; every other character is unchanged |
| Text.UpperIdempotent | frontend/terms-and-definitions/word-search/script.js:45 | upper-casing twice equals upper-casing once |
| Text.UpperString | backend/gameGenerator.js:180 | same length, each character upper-cased |
| Text.StripSpaces | frontend/terms-and-definitions/word-search/script.js:45 | no `\s` character remains, and each non-space character occurs exactly as often as in the input while white space occurs not at all |
| Text.StripSpacesMembers | frontend/terms-and-definitions/word-search/script.js:45 | every kept character comes from the input, and every non-space character of the input is kept |
| Text.StripSpacesChar | frontend/terms-and-definitions/word-search/script.js:45 | a single character is dropped exactly when it is white space |
| Text.StripSpacesConcat | frontend/terms-and-definitions/word-search/script.js:45 | stripping distributes over concatenation; with StripSpacesChar this says the kept characters keep their order |
| Text.StripSpacesFixes | frontend/terms-and-definitions/word-search/script.js:45 | a string without white space is left as it is |
| Grids.EmptyGrid | frontend/terms-and-definitions/word-search/script.js:81-83 | 15 rows of 15 cells, every cell empty |
| Grids.Put | frontend/terms-and-definitions/word-search/script.js:147 | the written cell holds the value and every other cell is unchanged |
| Grids.StepInjective | frontend/terms-and-definitions/word-search/script.js:155-159 | two letters of one word never share a cell |
| Grids.Positions | frontend/terms-and-definitions/word-search/script.js:151-162 | exactly `len` positions, position i being start + i·direction |
| Grids.PositionsDistinct | frontend/terms-and-definitions/word-search/script.js:151-162 | the positions of a word are pairwise different |
| Grids.PathFits | frontend/terms-and-definitions/word-search/script.js:121-139 | the per-letter test accepts exactly when every covered cell is inside the grid and empty or equal to the letter |
| Grids.WriteFrom | frontend/terms-and-definitions/word-search/script.js:144-148 | the loop from letter i writes letters i.. at their cells and leaves every other cell unchanged |
| Grids.PlaceWord | frontend/terms-and-definitions/word-search/script.js:141-149 | `placeWord` writes word[i] at position i and leaves every cell off the positions unchanged |
| Grids.PlaceWordExtends | frontend/terms-and-definitions/word-search/script.js:141-149 | writing a word whose letters all fit keeps every letter already in the grid |
| Grids.PlaceWordSpells | frontend/terms-and-definitions/word-search/script.js:141-149 | after writing, every letter is inside the grid at its position |
| Grids.PlaceWordKeepsLetters | frontend/terms-and-definitions/word-search/script.js:107-108 | after an accepted per-letter test, writing the word keeps all letters and leaves the word readable |
| Grids.SpellsExtends | backend/gameGenerator.js:213-241 | a readable word stays readable in every grid that keeps all letters |
| Grids.CellAt | frontend/terms-and-definitions/word-search/script.js:167-168 | row-major index k names exactly one cell of the grid |
| Grids.FillFrom | frontend/terms-and-definitions/word-search/script.js:164-174 | cells before k and letter cells are unchanged; empty cells from k on become capital letters |
| Grids.FillEmpty | frontend/terms-and-definitions/word-search/script.js:164-174 | the fill keeps the grid 15×15 |
| Grids.FillEmptyFills | frontend/terms-and-definitions/word-search/script.js:164-174 | letter cells unchanged, empty cells become A–Z, and afterwards no cell is empty |
| Placement.Directions | backend/gameGenerator.js:206-211 | the server table has the 4 forward directions, the browser table (script.js:86-95) all 8 |
| Placement.ForwardStep | backend/gameGenerator.js:206-211 | every server direction moves down or right by one and never up |
| Placement.ServerCanPlaceSpec | backend/gameGenerator.js:185-197 | the server accepts exactly when the start is inside, `r + len·dr < 15` and `c + len·dc < 15`, and every covered cell is inside and empty or equal to the letter |
| Placement.ServerRejectsLong | backend/gameGenerator.js:187 | no word of 15 or more letters is ever accepted, whatever the grid or start |
| Placement.ServerAvoidsLastLine | backend/gameGenerator.js:187 | words placed by the server never touch the last row (moving down) or the last column (moving right) |
| Placement.ServerStricterThanNeeded | backend/gameGenerator.js:187 | a 15-letter word along row 0 of an empty grid fits cell by cell, yet the server refuses it |
| Placement.ServerImpliesClient | backend/gameGenerator.js:185-197 | whatever the server accepts, the browser's per-letter test accepts too |
| Placement.Verdicts | backend/gameGenerator.js:224 | verdict j is whether attempt j is accepted, for the first 100 attempts |
| Placement.FirstFit | backend/gameGenerator.js:219-230 | the retry loop stops at the first accepted attempt, having refused every earlier one; it reports none when all 100 are refused |
| Placement.AcceptedFits | backend/gameGenerator.js:224-225 | an accepted attempt starts inside the grid and every letter fits; on the server the end-point bound holds too |
| Placement.PlaceOne | frontend/terms-and-definitions/word-search/script.js:97-119 | one word's turn uses 1 to 100 attempts and keeps every letter. A placed word is admissible and readable at its spot, and the grid is exactly the input grid with the word written there. An unplaced word leaves the grid unchanged after all 100 attempts |
| Placement.PlaceOneOnlyWord | frontend/terms-and-definitions/word-search/script.js:97-119 | a turn fills no cell off its word's path, and fills none at all when the word gets no spot |
| Placement.PlaceOneFirstFit | frontend/terms-and-definitions/word-search/script.js:102-113 | the spot comes from the last attempt drawn, which is accepted after all earlier ones were refused; with no spot all 100 were refused |
| Placement.PlaceAll | backend/gameGenerator.js:216-231 | one spot or none per word, at most 100 attempts per word, and every letter written earlier survives |
| Placement.CoveredCons | backend/gameGenerator.js:216-231 | a cell on the path of the first word, or of a later word, is on the path of some word of the whole list |
| Placement.OnlyWordsCons | backend/gameGenerator.js:216-231 | a turn that writes only its word, followed by a loop that writes only its words, writes only the words of the whole list |
| Placement.PlaceAllOnlyWords | backend/gameGenerator.js:216-231 | every cell the loop fills lies on the path of a word that received a spot: nothing but the placed words is written |
| Placement.ReadableCons | backend/gameGenerator.js:216-231 | adding a word in front, placed readably or dropped, keeps the layout readable |
| Placement.PlaceAllSpells | backend/gameGenerator.js:216-231 | every placed word is admissible at its spot and still readable in the final grid, after all later words |
| Placement.ServerSpotShort | backend/gameGenerator.js:187 | a word the server can place has fewer than 15 letters |
| Placement.ServerPlacesOnlyShortWords | backend/gameGenerator.js:216-231 | with the server table, only words of fewer than 15 letters receive a spot |
| Placement.PlacedIndices | backend/gameGenerator.js:226 | the indices of the placed words, strictly increasing, containing every placed index |
| Placement.PlacedIndicesBound | backend/gameGenerator.js:226 | there are no more placed indices than words |
| Placement.Kept | backend/gameGenerator.js:226 | `placedWords` lists the placed words in input order |
| GameGenerator.ParseType | backend/gameGenerator.js:121-134 | a recognised tag is the name of the type it selects |
| GameGenerator.ParseTypeName | backend/gameGenerator.js:121-134 | each type's own tag selects that type |
| GameGenerator.CardIdInjective | backend/gameGenerator.js:24-30 | two card ids are equal exactly when kind and index are |
| GameGenerator.CardsFrom | backend/gameGenerator.js:22-35 | the `forEach` from index i pushes 2·(N − i) cards |
| GameGenerator.CardsFromWellFormed | backend/gameGenerator.js:22-35 | each pushed card belongs to a pair ≥ i, with the id and content of its kind |
| GameGenerator.FaceCountsFrom | backend/gameGenerator.js:22-35 | each (pair, kind) with pair ≥ i occurs once among the pushed cards, and no other |
| GameGenerator.PairCountsFrom | backend/gameGenerator.js:22-35 | each pair id ≥ i occurs exactly twice among the pushed cards, and no other |
| GameGenerator.BuildMemory | backend/gameGenerator.js:15-45 | fails with the source's message exactly below 2 terms; otherwise 2N cards, `totalPairs = N`, each card a card of some pair |
| GameGenerator.MemoryPairs | backend/gameGenerator.js:15-45 | each pair id 0..N-1 occurs exactly twice, once as term and once as definition; no other pair id occurs |
| GameGenerator.DistinctFacesDistinctIds | backend/gameGenerator.js:24-30 | cards with distinct faces have distinct ids |
| GameGenerator.MemoryIdsDistinct | backend/gameGenerator.js:15-45 | no two memory cards share an id |
| GameGenerator.TermEntries | backend/gameGenerator.js:55-58 | entry i is `{id: i, content: term_i}` |
| GameGenerator.DefinitionEntries | backend/gameGenerator.js:60-63 | entry i is `{id: i, content: definition_i}` |
| GameGenerator.BuildAssociation | backend/gameGenerator.js:49-73 | fails below 2 terms; the term list is in input order with `id = i`; the definitions are a permutation of `{id: i, content: definition_i}` |
| GameGenerator.AssociationIdsDistinct | backend/gameGenerator.js:60-66 | each definition id occurs once in the shuffled list |
| GameGenerator.Distractors | backend/gameGenerator.js:86-89 | the wrong answers are the definitions of the first three terms other than i, in input order |
| GameGenerator.DistractorsClosedForm | backend/gameGenerator.js:86-89 | with four or more terms, the three distractors of each index, written out |
| GameGenerator.AnswersOf | backend/gameGenerator.js:92-95 | before shuffling, `min(4, N)` answers with the right one first |
| GameGenerator.FindFrom | backend/gameGenerator.js:98 | `findIndex` gives -1 exactly when the value is absent, otherwise its least index |
| GameGenerator.MakeQuestion | backend/gameGenerator.js:84-106 | question i has `id = i`, the term as question text and the source's explanation |
| GameGenerator.MakeQuestionGood | backend/gameGenerator.js:84-106 | the 4 answers are a permutation of the definition and its distractors, and `correctAnswer` is the least index holding the definition |
| GameGenerator.QuestionsInOrder | backend/gameGenerator.js:84-107 | question i of the unshuffled list is the question built for term i |
| GameGenerator.InOrderIdsDistinct | backend/gameGenerator.js:100-107 | the unshuffled question ids are distinct |
| GameGenerator.BuildQuiz | backend/gameGenerator.js:77-117 | fails below 4 terms; otherwise N questions with `totalQuestions = N` |
| GameGenerator.QuizQuestions | backend/gameGenerator.js:77-117 | the questions are a permutation of the in-order questions, and each one is well formed |
| GameGenerator.QuizIdsDistinct | backend/gameGenerator.js:100-110 | each term gets exactly one question: the ids are distinct |
| GameGenerator.ServerWords | backend/gameGenerator.js:180 | the words are the upper-cased terms, white space kept |
| GameGenerator.ServerLayout | backend/gameGenerator.js:213-231 | the placement loop yields a 15×15 grid and one spot or none per term |
| GameGenerator.BuildWordSearch | backend/gameGenerator.js:175-248 | fails with the source's message exactly below 5 terms; otherwise a 15×15 grid |
| GameGenerator.WordSearchOf | backend/gameGenerator.js:180-248 | the built game is a word-search game on a 15×15 grid |
| GameGenerator.WordSearchContents | backend/gameGenerator.js:175-248 | the grid has no empty cell, and `words` is the in-order list of upper-cased terms that were placed |
| GameGenerator.WordSearchReadable | backend/gameGenerator.js:213-241 | every placed word keeps an admissible spot, is shorter than 15 letters, and is readable in the final grid |
| GameGenerator.WordSearchOnlyWords | backend/gameGenerator.js:213-231 | before the fill, every letter of the grid lies on the path of a placed term |
| GameGenerator.WordSearchFill | backend/gameGenerator.js:233-241 | the fill keeps every placed letter and turns exactly the empty cells into capitals |
| GameGenerator.GenerateSpec | backend/gameGenerator.js:121-134 | for the `switch` of `generateGame`: a known type fails exactly below its builder's minimum and otherwise yields a game of that type |
| GameGenerator.GenerateGame | backend/gameGenerator.js:121-134 | an unknown tag fails with the source's message; a known tag fails exactly below its minimum; a game has the tag's type |
| GameGenerator.GenerateMemory | backend/gameGenerator.js:123-124 | the tag `memory` returns exactly what the memory builder returns on the card draws |
| GameGenerator.GenerateAssociation | backend/gameGenerator.js:125-126 | the tag `association` returns exactly what the association builder returns |
| GameGenerator.GenerateQuiz | backend/gameGenerator.js:127-128 | the tag `quiz` returns exactly what the quiz builder returns |
| GameGenerator.GenerateWordSearch | backend/gameGenerator.js:129-130 | the tag `word-search` returns exactly what the word-search builder returns |
| Scoring.TimeBonus | backend/gameGenerator.js:139 | the time bonus is never negative, is `cap − t` up to the cap and 0 from there on |
| Scoring.Accuracy | backend/gameGenerator.js:157 | with a positive total the percentage times the total is 100·correct; with a zero total it is `Infinity` exactly when some item is correct |
| Scoring.AtLeastIsIntegerTest | backend/gameGenerator.js:158 | for a positive total, `percentage >= k` is the integer test `100·correct >= k·total` |
| Scoring.TierIntegerTests | backend/gameGenerator.js:168 | the two-tier bonus is decided by integer tests; with a zero total the top tier is paid exactly when some item is correct |
| Scoring.TierMonotone | backend/gameGenerator.js:155-172 | more correct items never lower the accuracy bonus |
| Scoring.MemoryScore | backend/gameGenerator.js:137-143 | the score is 100 per pair, plus `max(0, 300 − t)`, plus 200 when every pair is found; hence at least the base and at most 500 more for a non-negative time |
| Scoring.AssociationScore | backend/gameGenerator.js:146-152 | the score is 150 per association, plus `max(0, 240 − t)`, plus 300 when every association is made; hence at most 540 more for a non-negative time |
| Scoring.QuizScore | backend/gameGenerator.js:155-162 | at least 200 per correct answer and at most 580 more for a non-negative time |
| Scoring.WordSearchScore | backend/gameGenerator.js:165-172 | at least 250 per word and at most 1100 more for a non-negative time |
| Scoring.QuizScoreTiers | backend/gameGenerator.js:155-162 | the quiz bonus is 400 from `100·correct >= 80·total`, 200 from `60·total` |
| Scoring.WordSearchScoreTiers | backend/gameGenerator.js:165-172 | the word-search bonus is 500 from `100·found >= 90·total`, 300 from `70·total` |
| Scoring.ScoresNonIncreasingInTime | backend/gameGenerator.js:137-172 | finishing later never raises any score |
| Scoring.ScoresMonotoneInCorrect | backend/gameGenerator.js:137-172 | up to the total, more correct items never lower any score |
| Scoring.ScoreExamples | backend/gameGenerator.js:137-172 | memory(5, 5, 100) = 900, quiz(10, 9, 200) = 2200, word search(10, 7, 610) = 2050 |
| Scoring.CalculateScore | backend/gameGenerator.js:252-281 | an unknown tag scores exactly 0 |
| Scoring.CalculateScoreDelegates | backend/gameGenerator.js:252-281 | each known tag is scored by its own formula on its own fields |
| WordSearchClient.Normalize | frontend/terms-and-definitions/word-search/script.js:45 | a normalised word has no white space and no lower-case ASCII letter |
| WordSearchClient.NormalizeConcat | frontend/terms-and-definitions/word-search/script.js:45 | normalising a concatenation normalises each part: characters are handled one by one, in order |
| WordSearchClient.NormalizeChar | frontend/terms-and-definitions/word-search/script.js:45 | a single character is dropped when it is white space and otherwise upper-cased |
| WordSearchClient.NormalizeIdempotent | frontend/terms-and-definitions/word-search/script.js:45 | normalising a normalised word changes nothing |
| WordSearchClient.SelectRandomTerms | frontend/terms-and-definitions/word-search/script.js:42-49 | `min(maxCount, n)` entries; entry i is made from element i of the randomly sorted array, with the normalised term as word and no positions |
| WordSearchClient.SelectRandomTermsSubmultiset | frontend/terms-and-definitions/word-search/script.js:42-49 | the chosen terms, as a multiset, are contained in the input terms: no term is chosen more often than it occurs |
| WordSearchClient.WordsOf | frontend/terms-and-definitions/word-search/script.js:97-98 | the words of the entries, in order |
| WordSearchClient.ClientLayout | frontend/terms-and-definitions/word-search/script.js:85-119 | placing on a fresh grid yields a 15×15 grid and one spot or none per word |
| WordSearchClient.WithPositions | frontend/terms-and-definitions/word-search/script.js:107-113 | placed words get `getWordPositions` of their spot; unplaced words keep their entry unchanged |
| WordSearchClient.StartNewGame | frontend/terms-and-definitions/word-search/script.js:63-79 | a new game has nothing found, score and hints 0, and a valid state |
| WordSearchClient.NewGameReadable | frontend/terms-and-definitions/word-search/script.js:63-79 | after a new game no cell is empty, and every word placed in this round reads letter by letter along its positions |
| WordSearchClient.GetCellsInLine | frontend/terms-and-definitions/word-search/script.js:251-278 | a line drag gives `max(|rowDiff|, |colDiff|) + 1` cells from start to end inclusive; any other drag gives just the start; with both ends in the grid every cell is |
| WordSearchClient.LineCellsInGrid | frontend/terms-and-definitions/word-search/script.js:267-272 | the cells of a line drag between two grid cells lie in the grid |
| WordSearchClient.GetCellsInLineAdjacent | frontend/terms-and-definitions/word-search/script.js:264-269 | consecutive cells differ by at most one row and one column |
| WordSearchClient.LineCellReversed | frontend/terms-and-definitions/word-search/script.js:264-269 | cell i of the drag back from the end is cell n − i of the drag from the start |
| WordSearchClient.GetCellsInLineReversed | frontend/terms-and-definitions/word-search/script.js:251-278 | dragging back from the end selects the same cells in the opposite order |
| WordSearchClient.TowardUnit | frontend/terms-and-definitions/word-search/script.js:268-269 | along an axis moved by m unit steps, cell i is i steps from the start |
| WordSearchClient.LineThroughPositions | frontend/terms-and-definitions/word-search/script.js:251-278 | a drag from a word's first position to its last selects exactly its `getWordPositions` |
| WordSearchClient.SelectionText | frontend/terms-and-definitions/word-search/script.js:293 | the selected text has at most one character per cell |
| WordSearchClient.SelectionSpells | frontend/terms-and-definitions/word-search/script.js:293 | cells holding the letters of w, in order, read back as w |
| WordSearchClient.SelectionSpellsReversed | frontend/terms-and-definitions/word-search/script.js:293-294 | the same cells in the opposite order read back as w reversed |
| WordSearchClient.FirstMatch | frontend/terms-and-definitions/word-search/script.js:296-298 | the first entry whose word equals the selection or its reverse and is not yet found, or none when there is no such entry |
| WordSearchClient.CompletionBonus | frontend/terms-and-definitions/word-search/script.js:374 | the completion bonus is `2·(300 − elapsed)` up to 300 seconds and 0 after |
| WordSearchClient.CheckSelectedWord | frontend/terms-and-definitions/word-search/script.js:292-325 | grid, words and hints never change, and at most one word is added |
| WordSearchClient.CheckSelectedWordSpec | frontend/terms-and-definitions/word-search/script.js:292-325 | with no matching entry nothing changes. Otherwise a matching word is appended and the score rises by 10 per letter, plus the completion bonus when it was the last word |
| WordSearchClient.FirstMatchReversed | frontend/terms-and-definitions/word-search/script.js:296-298 | a reversed selection matches the same first entry |
| WordSearchClient.CheckSelectedWordReversed | frontend/terms-and-definitions/word-search/script.js:293-298 | selecting a word backwards has the same effect as selecting it forwards |
| WordSearchClient.CheckSelectedWordValid | frontend/terms-and-definitions/word-search/script.js:297-300 | found words stay distinct words of the game and the score stays non-negative |
| WordSearchClient.CheckSelection | frontend/terms-and-definitions/word-search/script.js:239-247 | a drag followed by matching never changes grid, words or hints |
| WordSearchClient.PositionsSpell | frontend/terms-and-definitions/word-search/script.js:151-162 | the positions of a word the grid spells hold its letters |
| WordSearchClient.DragForwardText | frontend/terms-and-definitions/word-search/script.js:251-293 | dragging from a word's first letter to its last reads the word |
| WordSearchClient.DragBackwardText | frontend/terms-and-definitions/word-search/script.js:251-294 | dragging from its last letter to its first reads the word reversed |
| WordSearchClient.MatchAdds | frontend/terms-and-definitions/word-search/script.js:296-316 | if some unfound entry matches the selection, there is a first matching entry and checking adds its word |
| WordSearchClient.DragFinds | frontend/terms-and-definitions/word-search/script.js:292-316 | dragging over an unfound readable word, either way, finds one more word that reads as it forwards or backwards |
| WordSearchClient.NewGameFindable | frontend/terms-and-definitions/word-search/script.js:107-113 | in a new game every placed non-empty word can be found by dragging over its recorded positions, either way |
| WordSearchClient.Unfound | frontend/terms-and-definitions/word-search/script.js:328 | the unfound entries come from the words and are not found, every unfound entry is kept, and there are none exactly when every word is found |
| WordSearchClient.UnfoundConcat | frontend/terms-and-definitions/word-search/script.js:328 | the filter distributes over concatenation, so the unfound entries keep their order |
| WordSearchClient.UnfoundOne | frontend/terms-and-definitions/word-search/script.js:328 | a single entry is kept exactly when its word is not found |
| WordSearchClient.ShowHint | frontend/terms-and-definitions/word-search/script.js:327-346 | grid, words and found words never change. With every word found, or when the picked entry has no first position (the source throws), the state is unchanged. Otherwise exactly the hint count rises by one and the score becomes `max(0, score − 50)` |
| WordSearchClient.ShowHintValid | frontend/terms-and-definitions/word-search/script.js:327-346 | hints keep the state valid |

## Left out

- DOM rendering, event listeners, `fetch`, saving results, timers and audio: they are outside the game logic. Cells are coordinates, and the elapsed time is an input.
- Uniformity of the random draws: the properties hold for every draw sequence, so no distribution is modelled.
- `backend/server.js` is not part of this model: routing, sessions, the database and e-mail.
- The fixed `instructions` strings of the four game objects: constant text.
- Shuffling.Shuffle: its contract states length only; the permutation, membership and distinctness facts are the separate lemmas ShufflePermutes, ShuffleMembers and ShuffleDistinct. The input is a value, so "the input is unchanged" holds by construction.
- GameGenerator.Generate: the `switch` for a known type carries no contract of its own. GenerateSpec states its outcome, and GenerateMemory, GenerateAssociation, GenerateQuiz and GenerateWordSearch state which builder each tag reaches.
- GameGenerator.BuildQuiz: its contract states failure and size only; the content of each question is stated by QuizQuestions and QuizIdsDistinct.
- GameGenerator.BuildWordSearch: its contract states failure and grid shape; the contents are in WordSearchContents, WordSearchReadable and WordSearchFill.
- GameGenerator.ServerWords: server words are only upper-cased, with white space kept, as the code does (line 180). Unlike the browser (script.js:45), the server does not strip them.
- Placement.PlaceAll: its contract states the shape of the layout and that letters survive. That nothing but the placed words is written is stated by PlaceAllOnlyWords, and readability by PlaceAllSpells.
- WordSearchClient.Normalize: its contract states the character classes of the result. Which characters remain, and in what order, is stated by NormalizeChar and NormalizeConcat.
- Text.Upper: models `toUpperCase` for ASCII and the Latin-1 letters U+00E0–U+00FE only. Characters whose capital is longer or lies elsewhere in Unicode are left as they are.
- Text.ShowNat: renders only non-negative indices, which is all the source renders.
- Grids.PathFits: strings are sequences of characters. Characters outside the Basic Multilingual Plane count as one letter here, but as two UTF-16 units in JavaScript.
- Scoring.MemoryScore: the time is a whole number of seconds and the counts are natural numbers, so `Math.round` is the identity and is not modelled. The same holds for the other three scorers.
- Scoring.Accuracy: the percentage is an exact rational. Floating-point rounding of `(correct / total) * 100` near a tier boundary is not modelled.
- WordSearchClient.SelectRandomTerms: the sort with a random comparator is modelled as an arbitrary rearrangement (`shuffled`). That `sort` also reorders the caller's array in place; this is not modelled.
- WordSearchClient.GetCellsInLine: the source drops coordinates that name no DOM cell (`if (cell)`). The model keeps every coordinate and proves that all of them lie in the grid when both ends do, which is always the case for a drag between cells.
- WordSearchClient.ShowHint: an entry with no positions, or with an empty position list, makes the source throw before the counters move. The model leaves the state unchanged in that case. The highlighted cell and its timeout are DOM effects and are left out.
- WordSearchClient.WithPositions: an entry that a later round fails to place keeps the positions of an earlier round, as in the source.
- WordSearchClient.CheckSelection: the selection cleanup and the `found` styling of cells are DOM effects and are left out.
