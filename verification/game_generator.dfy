/**
 * The server-side game builders of `GameGenerator`: memory cards, association
 * lists, quiz questions, the word-search grid, and the `generateGame`
 * dispatch over the game-type tag.
 *
 * Every `Math.random` draw is an input: shuffle swap indices (see
 * `Shuffling`), placement attempts (see `Placement`) and fill letters (see
 * `Grids`). The properties hold for every draw sequence.
 */
module GameGenerator {
  import opened Common
  import opened Text
  import opened Grids
  import opened Shuffling
  import opened Placement

  /** One stored term with its definition. */
  datatype TermPair = TermPair(term: string, definition: string)

  /** The `type` field of a memory card. */
  datatype CardKind = TermCard | DefinitionCard

  datatype Card = Card(id: string, kind: CardKind, content: string, pairId: nat)

  /** An item of the association lists: `{id, content}`. */
  datatype Entry = Entry(id: nat, content: string)

  datatype Question = Question(
    id: nat,
    question: string,
    answers: seq<string>,
    correctAnswer: int,
    explanation: string)

  /** The four game objects, without their fixed `instructions` text. */
  datatype Game =
    | MemoryGame(cards: seq<Card>, totalPairs: nat)
    | AssociationGame(terms: seq<Entry>, definitions: seq<Entry>)
    | QuizGame(questions: seq<Question>, totalQuestions: nat)
    | WordSearchGame(grid: Grid, words: seq<string>)

  /** The four game types. */
  datatype GameType = Memory | Association | Quiz | WordSearch

  /** The `gameType` tag of each type. */
  function TypeName(t: GameType): string {
    match t
    case Memory => "memory"
    case Association => "association"
    case Quiz => "quiz"
    case WordSearch => "word-search"
  }

  /** The `switch` over a tag: the type whose tag it equals, if any. */
  function ParseType(tag: string): (r: Option<GameType>)
    ensures r.Some? ==> TypeName(r.value) == tag
  {
    if tag == "memory" then Some(Memory)
    else if tag == "association" then Some(Association)
    else if tag == "quiz" then Some(Quiz)
    else if tag == "word-search" then Some(WordSearch)
    else None
  }

  /** Every type's tag is recognised as that type: parsing inverts naming. */
  lemma {:induction false} ParseTypeName(t: GameType)
    ensures ParseType(TypeName(t)) == Some(t)
  {
  }

  /** The type of a game object, as its `gameType` field says. */
  function TypeOf(g: Game): GameType {
    match g
    case MemoryGame(_, _) => Memory
    case AssociationGame(_, _) => Association
    case QuizGame(_, _) => Quiz
    case WordSearchGame(_, _) => WordSearch
  }

  // ---------------------------------------------------------------- memory

  /** The card id template: `term-${index}` or `definition-${index}`. */
  function CardId(kind: CardKind, index: nat): string {
    (if kind == TermCard then "term-" else "definition-") + ShowNat(index)
  }

  /** Two card ids are equal exactly when kind and index are. */
  lemma {:induction false} CardIdInjective(k1: CardKind, i1: nat, k2: CardKind, i2: nat)
    ensures CardId(k1, i1) == CardId(k2, i2) <==> k1 == k2 && i1 == i2
  {
    var a, b := CardId(k1, i1), CardId(k2, i2);
    if a == b {
      assert a[0] == if k1 == TermCard then 't' else 'd';
      assert b[0] == if k2 == TermCard then 't' else 'd';
      var n := if k1 == TermCard then 5 else 11;
      assert a[n..] == ShowNat(i1) && b[n..] == ShowNat(i2);
      ShowNatInjective(i1, i2);
    }
  }

  /** A card that belongs to pair `pairId` of `terms`, with the matching id and content. */
  predicate CardOf(terms: seq<TermPair>, c: Card) {
    && c.pairId < |terms|
    && c.id == CardId(c.kind, c.pairId)
    && c.content == (if c.kind == TermCard then terms[c.pairId].term else terms[c.pairId].definition)
  }

  /** The two cards pushed for index i. */
  function CardsAt(terms: seq<TermPair>, i: nat): (r: seq<Card>)
    requires i < |terms|
  {
    [Card(CardId(TermCard, i), TermCard, terms[i].term, i),
     Card(CardId(DefinitionCard, i), DefinitionCard, terms[i].definition, i)]
  }

  /** The `forEach` that pushes a term card then a definition card for index i onwards. */
  function CardsFrom(terms: seq<TermPair>, i: nat): (r: seq<Card>)
    requires i <= |terms|
    ensures |r| == 2 * (|terms| - i)
    decreases |terms| - i
  {
    if i == |terms| then []
    else CardsAt(terms, i) + CardsFrom(terms, i + 1)
  }

  /** Every card pushed from index i on is a card of a pair >= i. */
  lemma {:induction false} CardsFromWellFormed(terms: seq<TermPair>, i: nat)
    requires i <= |terms|
    ensures forall k :: 0 <= k < |CardsFrom(terms, i)| ==>
      CardOf(terms, CardsFrom(terms, i)[k]) && i <= CardsFrom(terms, i)[k].pairId
    decreases |terms| - i
  {
    if i < |terms| {
      CardsFromWellFormed(terms, i + 1);
      var r, tail := CardsFrom(terms, i), CardsFrom(terms, i + 1);
      forall k | 2 <= k < |r|
        ensures r[k] == tail[k - 2]
      {
      }
    }
  }

  /** What makes a card unique within a game: its pair and its kind. */
  datatype Face = Face(pairId: nat, kind: CardKind)

  function FaceOf(c: Card): Face {
    Face(c.pairId, c.kind)
  }

  function PairIdOf(c: Card): int {
    c.pairId
  }

  function IdOf(c: Card): string {
    c.id
  }

  /** Counting in a sequence that starts with two given elements. */
  lemma {:induction false} CountAfterTwo<T>(a: T, b: T, rest: seq<T>, x: T)
    ensures multiset([a, b] + rest)[x] == (if a == x then 1 else 0) + (if b == x then 1 else 0) + multiset(rest)[x]
  {
    assert multiset([a, b] + rest) == multiset{a} + multiset{b} + multiset(rest);
  }

  /** Counting the images of a sequence that starts with two given elements. */
  lemma {:induction false} MappedCountAfterTwo<T, U>(f: T -> U, a: T, b: T, rest: seq<T>, x: U)
    ensures multiset(Map(f, [a, b] + rest))[x] ==
      (if f(a) == x then 1 else 0) + (if f(b) == x then 1 else 0) + multiset(Map(f, rest))[x]
  {
    MapConcat(f, [a, b], rest);
    assert Map(f, [a, b]) == [f(a), f(b)];
    CountAfterTwo(f(a), f(b), Map(f, rest), x);
  }

  /** From index i on, every (pair, kind) face with pair >= i occurs exactly once. */
  lemma {:induction false} FaceCountsFrom(terms: seq<TermPair>, i: nat, f: Face)
    requires i <= |terms|
    ensures multiset(Map(FaceOf, CardsFrom(terms, i)))[f] == if i <= f.pairId < |terms| then 1 else 0
    decreases |terms| - i
  {
    if i == |terms| {
      assert Map(FaceOf, CardsFrom(terms, i)) == [];
    } else {
      var head := CardsAt(terms, i);
      assert CardsFrom(terms, i) == [head[0], head[1]] + CardsFrom(terms, i + 1);
      var tail := CardsFrom(terms, i + 1);
      MappedCountAfterTwo(FaceOf, head[0], head[1], tail, f);
      assert FaceOf(head[0]) == Face(i, TermCard) && FaceOf(head[1]) == Face(i, DefinitionCard);
      FaceCountsFrom(terms, i + 1, f);
      assert (if Face(i, TermCard) == f then 1 else 0) + (if Face(i, DefinitionCard) == f then 1 else 0)
          == if f.pairId == i then 1 else 0 by {
        match f.kind
        case TermCard =>
        case DefinitionCard =>
      }
    }
  }

  /** From index i on, every pair id >= i occurs exactly twice. */
  lemma {:induction false} PairCountsFrom(terms: seq<TermPair>, i: nat, p: int)
    requires i <= |terms|
    ensures multiset(Map(PairIdOf, CardsFrom(terms, i)))[p] == if i <= p < |terms| then 2 else 0
    decreases |terms| - i
  {
    if i == |terms| {
      assert Map(PairIdOf, CardsFrom(terms, i)) == [];
    } else {
      var head := CardsAt(terms, i);
      assert CardsFrom(terms, i) == [head[0], head[1]] + CardsFrom(terms, i + 1);
      var tail := CardsFrom(terms, i + 1);
      MappedCountAfterTwo(PairIdOf, head[0], head[1], tail, p);
      assert PairIdOf(head[0]) == i && PairIdOf(head[1]) == i;
      PairCountsFrom(terms, i + 1, p);
      var later := multiset(Map(PairIdOf, tail))[p];
      assert multiset(Map(PairIdOf, CardsFrom(terms, i)))[p] == (if p == i then 2 else 0) + later;
    }
  }

  /**
   * `generateMemoryGame`: fails below 2 terms; otherwise 2N cards, each one a
   * card of some pair with the matching id and content, and N pairs.
   */
  function BuildMemory(terms: seq<TermPair>, swaps: seq<nat>): (r: Result<Game>)
    requires SwapDraws(2 * |terms|, swaps)
    ensures r.Fail? <==> |terms| < 2
    ensures r.Fail? ==> r.message == "Pelo menos 2 termos são necessários para o jogo da memória"
    ensures r.Ok? ==> r.value.MemoryGame? && r.value.totalPairs == |terms|
    ensures r.Ok? ==> |r.value.cards| == 2 * |terms|
    ensures r.Ok? ==> forall k :: 0 <= k < |r.value.cards| ==> CardOf(terms, r.value.cards[k])
  {
    if |terms| < 2 then Fail("Pelo menos 2 termos são necessários para o jogo da memória")
    else
      var base := CardsFrom(terms, 0);
      CardsFromWellFormed(terms, 0);
      var cards := Shuffle(base, swaps);
      ShuffleMembers(base, swaps);
      Ok(MemoryGame(cards, |terms|))
  }

  /**
   * Each pair 0..N-1 has exactly one term card and one definition card, so
   * its pair id occurs exactly twice; no other pair id occurs.
   */
  lemma {:induction false} MemoryPairs(terms: seq<TermPair>, swaps: seq<nat>)
    requires SwapDraws(2 * |terms|, swaps)
    requires |terms| >= 2
    ensures var cards := BuildMemory(terms, swaps).value.cards;
      && (forall f: Face :: multiset(Map(FaceOf, cards))[f] == if f.pairId < |terms| then 1 else 0)
      && (forall p: int :: multiset(Map(PairIdOf, cards))[p] == if 0 <= p < |terms| then 2 else 0)
  {
    var base := CardsFrom(terms, 0);
    ShuffleKeepsCounts(FaceOf, base, swaps);
    ShuffleKeepsCounts(PairIdOf, base, swaps);
    forall f: Face
      ensures multiset(Map(FaceOf, base))[f] == if f.pairId < |terms| then 1 else 0
    {
      FaceCountsFrom(terms, 0, f);
    }
    forall p: int
      ensures multiset(Map(PairIdOf, base))[p] == if 0 <= p < |terms| then 2 else 0
    {
      PairCountsFrom(terms, 0, p);
    }
  }

  /** Cards of distinct faces, each with its face's id, have distinct ids. */
  lemma {:induction false} DistinctFacesDistinctIds(terms: seq<TermPair>, cards: seq<Card>)
    requires forall k :: 0 <= k < |cards| ==> CardOf(terms, cards[k])
    requires Distinct(Map(FaceOf, cards))
    ensures Distinct(Map(IdOf, cards))
  {
    var faces, ids := Map(FaceOf, cards), Map(IdOf, cards);
    forall i, j | 0 <= i < j < |ids|
      ensures ids[i] != ids[j]
    {
      assert faces[i] == FaceOf(cards[i]) && faces[j] == FaceOf(cards[j]);
      assert CardOf(terms, cards[i]) && CardOf(terms, cards[j]);
      CardIdInjective(cards[i].kind, cards[i].pairId, cards[j].kind, cards[j].pairId);
      assert ids[i] == IdOf(cards[i]) && ids[j] == IdOf(cards[j]);
      assert ids[i] == cards[i].id && ids[j] == cards[j].id;
    }
  }

  /** No two cards of a memory game share an id. */
  lemma {:induction false} MemoryIdsDistinct(terms: seq<TermPair>, swaps: seq<nat>)
    requires SwapDraws(2 * |terms|, swaps)
    requires |terms| >= 2
    ensures Distinct(Map(IdOf, BuildMemory(terms, swaps).value.cards))
  {
    var cards := BuildMemory(terms, swaps).value.cards;
    MemoryPairs(terms, swaps);
    DistinctFromCounts(Map(FaceOf, cards));
    DistinctFacesDistinctIds(terms, cards);
  }

  // ----------------------------------------------------------- association

  function TermEntries(terms: seq<TermPair>): (r: seq<Entry>)
    ensures |r| == |terms|
    ensures forall i :: 0 <= i < |terms| ==> r[i] == Entry(i, terms[i].term)
  {
    seq(|terms|, i requires 0 <= i < |terms| => Entry(i, terms[i].term))
  }

  function DefinitionEntries(terms: seq<TermPair>): (r: seq<Entry>)
    ensures |r| == |terms|
    ensures forall i :: 0 <= i < |terms| ==> r[i] == Entry(i, terms[i].definition)
  {
    seq(|terms|, i requires 0 <= i < |terms| => Entry(i, terms[i].definition))
  }

  function EntryId(e: Entry): nat {
    e.id
  }

  /**
   * `generateAssociationGame`: fails below 2 terms; otherwise the term list
   * in input order with `id = index`, and the definition list a permutation
   * of the entries `{id: i, content: definition_i}`.
   */
  function BuildAssociation(terms: seq<TermPair>, swaps: seq<nat>): (r: Result<Game>)
    requires SwapDraws(|terms|, swaps)
    ensures r.Fail? <==> |terms| < 2
    ensures r.Fail? ==> r.message == "Pelo menos 2 termos são necessários para o jogo de associação"
    ensures r.Ok? ==> r.value.AssociationGame?
    ensures r.Ok? ==> r.value.terms == TermEntries(terms)
    ensures r.Ok? ==> multiset(r.value.definitions) == multiset(DefinitionEntries(terms))
    ensures r.Ok? ==> |r.value.definitions| == |terms|
    ensures r.Ok? ==> forall k :: 0 <= k < |r.value.definitions| ==>
      r.value.definitions[k].id < |terms| &&
      r.value.definitions[k].content == terms[r.value.definitions[k].id].definition
  {
    if |terms| < 2 then Fail("Pelo menos 2 termos são necessários para o jogo de associação")
    else
      var defs := DefinitionEntries(terms);
      ShufflePermutes(defs, swaps);
      ShuffleMembers(defs, swaps);
      Ok(AssociationGame(TermEntries(terms), Shuffle(defs, swaps)))
  }

  /** Each definition id 0..N-1 occurs exactly once in the shuffled list. */
  lemma {:induction false} AssociationIdsDistinct(terms: seq<TermPair>, swaps: seq<nat>)
    requires SwapDraws(|terms|, swaps)
    requires |terms| >= 2
    ensures Distinct(Map(EntryId, BuildAssociation(terms, swaps).value.definitions))
  {
    var base := DefinitionEntries(terms);
    ShuffleMap(EntryId, base, swaps);
    var ids := Map(EntryId, base);
    assert forall i :: 0 <= i < |ids| ==> ids[i] == EntryId(base[i]) == i;
    ShuffleDistinct(ids, swaps);
  }

  // ------------------------------------------------------------------ quiz

  function DefinitionOf(t: TermPair): string {
    t.definition
  }

  /**
   * The wrong answers for question i: the definitions of the other terms, in
   * input order, cut to at most three. Each is the definition of the k-th
   * term other than i.
   */
  function Distractors(terms: seq<TermPair>, i: nat): (r: seq<string>)
    requires i < |terms|
    ensures |r| == Min(3, |terms| - 1)
    ensures forall k :: 0 <= k < |r| ==> r[k] == terms[if k < i then k else k + 1].definition
  {
    var others := terms[..i] + terms[i + 1..];
    var defs := Map(DefinitionOf, others);
    assert forall k :: 0 <= k < |others| ==> defs[k] == terms[if k < i then k else k + 1].definition by {
      forall k | 0 <= k < |others|
        ensures defs[k] == terms[if k < i then k else k + 1].definition
      {
        assert defs[k] == DefinitionOf(others[k]);
      }
    }
    defs[..Min(3, |terms| - 1)]
  }

  /** The answers before shuffling: the right one first, then the distractors. */
  function AnswersOf(terms: seq<TermPair>, i: nat): (r: seq<string>)
    requires i < |terms|
    ensures |r| == Min(4, |terms|)
    ensures r[0] == terms[i].definition
  {
    [terms[i].definition] + Distractors(terms, i)
  }

  /**
   * `findIndex` from index k on: the least index at which `x` occurs, or -1
   * when it does not occur at or after k.
   */
  function FindFrom(s: seq<string>, x: string, k: nat): (r: int)
    requires k <= |s|
    ensures r == -1 <==> forall j :: k <= j < |s| ==> s[j] != x
    ensures r != -1 ==> k <= r < |s| && s[r] == x
    ensures r != -1 ==> forall j :: k <= j < r ==> s[j] != x
    decreases |s| - k
  {
    if k == |s| then -1
    else if s[k] == x then k
    else FindFrom(s, x, k + 1)
  }

  function Explanation(term: string, definition: string): string {
    "A definição correta de \"" + term + "\" é: " + definition
  }

  /** The question built for term i, with its answers shuffled by `swaps`. */
  function MakeQuestion(terms: seq<TermPair>, i: nat, swaps: seq<nat>): (q: Question)
    requires i < |terms|
    requires SwapDraws(Min(4, |terms|), swaps)
    ensures q.id == i && q.question == terms[i].term
    ensures q.explanation == Explanation(terms[i].term, terms[i].definition)
  {
    var answers := Shuffle(AnswersOf(terms, i), swaps);
    Question(i, terms[i].term, answers, FindFrom(answers, terms[i].definition, 0),
             Explanation(terms[i].term, terms[i].definition))
  }

  /**
   * A question's answers rearrange its definition and distractors, and
   * `correctAnswer` is the least index holding its definition.
   */
  lemma {:induction false} MakeQuestionGood(terms: seq<TermPair>, i: nat, swaps: seq<nat>)
    requires 4 <= |terms| && i < |terms|
    requires SwapDraws(Min(4, |terms|), swaps)
    ensures GoodQuestion(terms, MakeQuestion(terms, i, swaps))
  {
    var base := AnswersOf(terms, i);
    ShufflePermutes(base, swaps);
    ShuffleMembers(base, swaps);
  }

  /** Valid answer draws: one swap sequence per question. */
  predicate AnswerDraws(n: nat, answerSwaps: seq<seq<nat>>) {
    |answerSwaps| >= n && forall i :: 0 <= i < n ==> SwapDraws(Min(4, n), answerSwaps[i])
  }

  /** The questions in input order, before the final shuffle. */
  function QuestionsInOrder(terms: seq<TermPair>, answerSwaps: seq<seq<nat>>): (r: seq<Question>)
    requires AnswerDraws(|terms|, answerSwaps)
    ensures |r| == |terms|
    ensures forall i :: 0 <= i < |terms| ==> r[i] == MakeQuestion(terms, i, answerSwaps[i])
  {
    seq(|terms|, i requires 0 <= i < |terms| => MakeQuestion(terms, i, answerSwaps[i]))
  }

  /**
   * A question about term `q.id`: four answers that are a rearrangement of
   * its definition and the three distractors, and `correctAnswer` the least
   * index of its definition.
   */
  predicate GoodQuestion(terms: seq<TermPair>, q: Question) {
    && q.id < |terms|
    && q.question == terms[q.id].term
    && |q.answers| == 4
    && multiset(q.answers) == multiset(AnswersOf(terms, q.id))
    && 0 <= q.correctAnswer < 4
    && q.answers[q.correctAnswer] == terms[q.id].definition
    && (forall j :: 0 <= j < q.correctAnswer ==> q.answers[j] != terms[q.id].definition)
  }

  function QuestionId(q: Question): nat {
    q.id
  }

  /**
   * `generateQuizGame`: fails below 4 terms; otherwise N questions, a
   * rearrangement of the in-order questions, each one a good question.
   */
  function BuildQuiz(terms: seq<TermPair>, answerSwaps: seq<seq<nat>>, questionSwaps: seq<nat>): (r: Result<Game>)
    requires AnswerDraws(|terms|, answerSwaps)
    requires SwapDraws(|terms|, questionSwaps)
    ensures r.Fail? <==> |terms| < 4
    ensures r.Fail? ==> r.message == "Pelo menos 4 termos são necessários para o jogo de quiz"
    ensures r.Ok? ==> r.value.QuizGame? && r.value.totalQuestions == |terms|
    ensures r.Ok? ==> |r.value.questions| == |terms|
  {
    if |terms| < 4 then Fail("Pelo menos 4 termos são necessários para o jogo de quiz")
    else
      var questions := QuestionsInOrder(terms, answerSwaps);
      Ok(QuizGame(Shuffle(questions, questionSwaps), |questions|))
  }

  /**
   * The quiz questions are a rearrangement of the in-order questions, and
   * each one is a good question about its term.
   */
  lemma {:induction false} QuizQuestions(terms: seq<TermPair>, answerSwaps: seq<seq<nat>>, questionSwaps: seq<nat>)
    requires AnswerDraws(|terms|, answerSwaps)
    requires SwapDraws(|terms|, questionSwaps)
    requires |terms| >= 4
    ensures var qs := BuildQuiz(terms, answerSwaps, questionSwaps).value.questions;
      && multiset(qs) == multiset(QuestionsInOrder(terms, answerSwaps))
      && forall k :: 0 <= k < |qs| ==> GoodQuestion(terms, qs[k])
  {
    var base := QuestionsInOrder(terms, answerSwaps);
    forall i | 0 <= i < |base|
      ensures GoodQuestion(terms, base[i])
    {
      MakeQuestionGood(terms, i, answerSwaps[i]);
    }
    ShuffleKeepsAll(q => GoodQuestion(terms, q), base, questionSwaps);
    ShufflePermutes(base, questionSwaps);
  }

  /** Every term gets exactly one question: the question ids are 0..N-1, each once. */
  lemma {:induction false} QuizIdsDistinct(terms: seq<TermPair>, answerSwaps: seq<seq<nat>>, questionSwaps: seq<nat>)
    requires AnswerDraws(|terms|, answerSwaps)
    requires SwapDraws(|terms|, questionSwaps)
    requires |terms| >= 4
    ensures Distinct(Map(QuestionId, BuildQuiz(terms, answerSwaps, questionSwaps).value.questions))
  {
    var base := QuestionsInOrder(terms, answerSwaps);
    InOrderIdsDistinct(terms, answerSwaps);
    ShuffleMap(QuestionId, base, questionSwaps);
    ShuffleDistinct(Map(QuestionId, base), questionSwaps);
    assert BuildQuiz(terms, answerSwaps, questionSwaps).value.questions == Shuffle(base, questionSwaps);
  }

  /** Before the shuffle, question i has id i. */
  lemma {:induction false} InOrderIdsDistinct(terms: seq<TermPair>, answerSwaps: seq<seq<nat>>)
    requires AnswerDraws(|terms|, answerSwaps)
    ensures Distinct(Map(QuestionId, QuestionsInOrder(terms, answerSwaps)))
  {
    var base := QuestionsInOrder(terms, answerSwaps);
    var ids := Map(QuestionId, base);
    forall i | 0 <= i < |ids|
      ensures ids[i] == i
    {
      assert base[i] == MakeQuestion(terms, i, answerSwaps[i]);
    }
  }

  /** With at least four terms the distractors are the next three terms other than i, in order. */
  lemma {:induction false} DistractorsClosedForm(terms: seq<TermPair>, i: nat)
    requires 4 <= |terms| && i < |terms|
    ensures Distractors(terms, i) ==
      if i == 0 then [terms[1].definition, terms[2].definition, terms[3].definition]
      else if i == 1 then [terms[0].definition, terms[2].definition, terms[3].definition]
      else if i == 2 then [terms[0].definition, terms[1].definition, terms[3].definition]
      else [terms[0].definition, terms[1].definition, terms[2].definition]
  {
  }

  // ----------------------------------------------------------- word search

  /** `terms.map(t => t.term.toUpperCase())`: upper-cased, white space kept. */
  function ServerWords(terms: seq<TermPair>): (r: seq<string>)
    ensures |r| == |terms|
    ensures forall i :: 0 <= i < |terms| ==> r[i] == UpperString(terms[i].term)
  {
    seq(|terms|, i requires 0 <= i < |terms| => UpperString(terms[i].term))
  }

  /** Valid placement and fill draws for n words. */
  predicate WordSearchDraws(n: nat, attempts: seq<Attempt>, letters: seq<LetterDraw>) {
    |attempts| >= MaxAttempts * n && DirsIn(Server, attempts) && |letters| >= Size * Size
  }

  /** The grid and spots after every word was tried, before the fill. */
  function ServerLayout(terms: seq<TermPair>, attempts: seq<Attempt>): (out: Layout)
    requires |attempts| >= MaxAttempts * |terms| && DirsIn(Server, attempts)
    ensures IsGrid(out.grid) && |out.spots| == |terms|
  {
    PlaceAll(Server, EmptyGrid(), ServerWords(terms), attempts)
  }

  /**
   * `generateWordSearchGame`: fails below 5 terms; otherwise a complete 15×15
   * grid extending the placement grid, and the placed words in input order.
   */
  function BuildWordSearch(terms: seq<TermPair>, attempts: seq<Attempt>, letters: seq<LetterDraw>): (r: Result<Game>)
    requires WordSearchDraws(|terms|, attempts, letters)
    ensures r.Fail? <==> |terms| < 5
    ensures r.Fail? ==> r.message == "Pelo menos 5 termos são necessários para o jogo de caça-palavras"
    ensures r.Ok? ==> r.value.WordSearchGame? && IsGrid(r.value.grid)
  {
    if |terms| < 5 then Fail("Pelo menos 5 termos são necessários para o jogo de caça-palavras")
    else Ok(WordSearchOf(terms, attempts, letters))
  }

  /** The placement loop, then the fill; the game lists the words that were placed. */
  function WordSearchOf(terms: seq<TermPair>, attempts: seq<Attempt>, letters: seq<LetterDraw>): (g: Game)
    requires WordSearchDraws(|terms|, attempts, letters)
    ensures g.WordSearchGame? && IsGrid(g.grid)
  {
    var layout := ServerLayout(terms, attempts);
    WordSearchGame(FillEmpty(layout.grid, letters), Kept(ServerWords(terms), layout.spots))
  }

  /**
   * The word-search game's grid has no empty cell, and its words are the
   * upper-cased terms that received a spot, in input order.
   */
  lemma {:induction false} WordSearchContents(terms: seq<TermPair>, attempts: seq<Attempt>, letters: seq<LetterDraw>)
    requires WordSearchDraws(|terms|, attempts, letters)
    requires |terms| >= 5
    ensures var g := BuildWordSearch(terms, attempts, letters).value;
      var idx := PlacedIndices(ServerLayout(terms, attempts).spots, 0);
      && Complete(g.grid)
      && |g.words| == |idx|
      && forall j :: 0 <= j < |idx| ==> g.words[j] == UpperString(terms[idx[j]].term)
  {
    var layout := ServerLayout(terms, attempts);
    FillEmptyFills(layout.grid, letters);
  }

  /**
   * Every placed word is still readable at its spot after all later words
   * and the fill; its spot uses a forward direction within the end-point
   * bound, so it is shorter than 15 letters.
   */
  lemma {:induction false} WordSearchReadable(terms: seq<TermPair>, attempts: seq<Attempt>, letters: seq<LetterDraw>)
    requires WordSearchDraws(|terms|, attempts, letters)
    requires |terms| >= 5
    ensures var layout := ServerLayout(terms, attempts);
      var g := BuildWordSearch(terms, attempts, letters).value.grid;
      var words := ServerWords(terms);
      forall k :: 0 <= k < |terms| && layout.spots[k].Some? ==>
        && Admissible(Server, words[k], layout.spots[k].value)
        && |words[k]| < Size
        && Spells(g, words[k], layout.spots[k].value.start, layout.spots[k].value.dir)
  {
    var layout := ServerLayout(terms, attempts);
    var g := BuildWordSearch(terms, attempts, letters).value.grid;
    var words := ServerWords(terms);
    PlaceAllSpells(Server, EmptyGrid(), words, attempts);
    FillEmptyFills(layout.grid, letters);
    forall k | 0 <= k < |terms| && layout.spots[k].Some?
      ensures Admissible(Server, words[k], layout.spots[k].value)
      ensures |words[k]| < Size
      ensures Spells(g, words[k], layout.spots[k].value.start, layout.spots[k].value.dir)
    {
      var s := layout.spots[k].value;
      ServerSpotShort(words[k], s);
      SpellsExtends(layout.grid, g, words[k], s.start, s.dir);
    }
  }

  /**
   * Before the fill, the grid holds nothing but the placed words: every
   * letter lies on the path of a word that received a spot.
   */
  lemma {:induction false} WordSearchOnlyWords(terms: seq<TermPair>, attempts: seq<Attempt>)
    requires |attempts| >= MaxAttempts * |terms| && DirsIn(Server, attempts)
    ensures var layout := ServerLayout(terms, attempts);
      forall p :: InGrid(p) && At(layout.grid, p).Some? ==> Covered(ServerWords(terms), layout.spots, p)
  {
    PlaceAllOnlyWords(Server, EmptyGrid(), ServerWords(terms), attempts);
  }

  /** The fill writes capitals into exactly the cells placement left empty. */
  lemma {:induction false} WordSearchFill(terms: seq<TermPair>, attempts: seq<Attempt>, letters: seq<LetterDraw>)
    requires WordSearchDraws(|terms|, attempts, letters)
    requires |terms| >= 5
    ensures var before := ServerLayout(terms, attempts).grid;
      var after := BuildWordSearch(terms, attempts, letters).value.grid;
      forall p :: InGrid(p) ==>
        if At(before, p).Some? then At(after, p) == At(before, p)
        else At(after, p).Some? && IsCapital(At(after, p).value)
  {
    FillEmptyFills(ServerLayout(terms, attempts).grid, letters);
  }

  // -------------------------------------------------------------- dispatch

  /** Every random draw the four builders may consume, for n terms. */
  datatype Draws = Draws(
    cardSwaps: seq<nat>,
    definitionSwaps: seq<nat>,
    answerSwaps: seq<seq<nat>>,
    questionSwaps: seq<nat>,
    attempts: seq<Attempt>,
    letters: seq<LetterDraw>)

  predicate ValidDraws(n: nat, d: Draws) {
    && SwapDraws(2 * n, d.cardSwaps)
    && SwapDraws(n, d.definitionSwaps)
    && AnswerDraws(n, d.answerSwaps)
    && SwapDraws(n, d.questionSwaps)
    && WordSearchDraws(n, d.attempts, d.letters)
  }

  /** The least number of terms each builder accepts. */
  function MinTerms(t: GameType): nat {
    match t
    case Memory => 2
    case Association => 2
    case Quiz => 4
    case WordSearch => 5
  }

  /** The `switch` of `generateGame` for a known game type. */
  function Generate(t: GameType, terms: seq<TermPair>, draws: Draws): Result<Game>
    requires ValidDraws(|terms|, draws)
  {
    match t
    case Memory => BuildMemory(terms, draws.cardSwaps)
    case Association => BuildAssociation(terms, draws.definitionSwaps)
    case Quiz => BuildQuiz(terms, draws.answerSwaps, draws.questionSwaps)
    case WordSearch => BuildWordSearch(terms, draws.attempts, draws.letters)
  }

  /** What `generateGame` promises for a known game type t and n terms. */
  predicate Outcome(t: GameType, n: nat, r: Result<Game>) {
    && (r.Fail? <==> n < MinTerms(t))
    && (r.Ok? ==> TypeOf(r.value) == t)
  }

  lemma {:induction false} MemoryOutcome(terms: seq<TermPair>, draws: Draws)
    requires ValidDraws(|terms|, draws)
    ensures Outcome(Memory, |terms|, Generate(Memory, terms, draws))
  {
  }

  lemma {:induction false} AssociationOutcome(terms: seq<TermPair>, draws: Draws)
    requires ValidDraws(|terms|, draws)
    ensures Outcome(Association, |terms|, Generate(Association, terms, draws))
  {
  }

  lemma {:induction false} QuizOutcome(terms: seq<TermPair>, draws: Draws)
    requires ValidDraws(|terms|, draws)
    ensures Outcome(Quiz, |terms|, Generate(Quiz, terms, draws))
  {
  }

  lemma {:induction false} WordSearchOutcome(terms: seq<TermPair>, draws: Draws)
    requires ValidDraws(|terms|, draws)
    ensures Outcome(WordSearch, |terms|, Generate(WordSearch, terms, draws))
  {
  }

  /**
   * A known game type fails exactly when its builder wants more terms, and
   * otherwise yields a game of that type.
   */
  lemma {:induction false} GenerateSpec(t: GameType, terms: seq<TermPair>, draws: Draws)
    requires ValidDraws(|terms|, draws)
    ensures Outcome(t, |terms|, Generate(t, terms, draws))
  {
    match t
    case Memory => MemoryOutcome(terms, draws);
    case Association => AssociationOutcome(terms, draws);
    case Quiz => QuizOutcome(terms, draws);
    case WordSearch => WordSearchOutcome(terms, draws);
  }

  /**
   * `generateGame`: an unknown tag throws; a known tag fails exactly when its
   * builder wants more terms, and otherwise yields a game of that type.
   */
  function GenerateGame(tag: string, terms: seq<TermPair>, draws: Draws): (r: Result<Game>)
    requires ValidDraws(|terms|, draws)
    ensures r.Fail? <==> ParseType(tag).None? || |terms| < MinTerms(ParseType(tag).value)
    ensures ParseType(tag).None? ==> r == Fail("Tipo de jogo não suportado: " + tag)
    ensures r.Ok? ==> ParseType(tag) == Some(TypeOf(r.value))
  {
    match ParseType(tag)
    case None => Fail("Tipo de jogo não suportado: " + tag)
    case Some(t) => GenerateSpec(t, terms, draws); Generate(t, terms, draws)
  }

  /** The tag "memory" is handled by the memory builder on the card draws. */
  lemma {:induction false} GenerateMemory(terms: seq<TermPair>, draws: Draws)
    requires ValidDraws(|terms|, draws)
    ensures GenerateGame("memory", terms, draws) == BuildMemory(terms, draws.cardSwaps)
  {
    ParseTypeName(Memory);
  }

  /** The tag "association" is handled by the association builder on the definition draws. */
  lemma {:induction false} GenerateAssociation(terms: seq<TermPair>, draws: Draws)
    requires ValidDraws(|terms|, draws)
    ensures GenerateGame("association", terms, draws) == BuildAssociation(terms, draws.definitionSwaps)
  {
    ParseTypeName(Association);
  }

  /** The tag "quiz" is handled by the quiz builder on the answer and question draws. */
  lemma {:induction false} GenerateQuiz(terms: seq<TermPair>, draws: Draws)
    requires ValidDraws(|terms|, draws)
    ensures GenerateGame("quiz", terms, draws) == BuildQuiz(terms, draws.answerSwaps, draws.questionSwaps)
  {
    ParseTypeName(Quiz);
  }

  /** The tag "word-search" is handled by the word-search builder on the placement and fill draws. */
  lemma {:induction false} GenerateWordSearch(terms: seq<TermPair>, draws: Draws)
    requires ValidDraws(|terms|, draws)
    ensures GenerateGame("word-search", terms, draws) == BuildWordSearch(terms, draws.attempts, draws.letters)
  {
    ParseTypeName(WordSearch);
  }
}
