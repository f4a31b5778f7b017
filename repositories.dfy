/** The three stores the engine reads and writes, as values. The
    repository queries (TestRepository, AnswerRepository, UserRepository)
    are not modelled; each lookup here is the query the engine's calls
    evidently stand for. */
module Repositories {
  import opened Results

  /** An answer option of a question: display text and its scoring weight,
      kept as the raw stored text that the engine never interprets. */
  datatype Choice = Choice(id: int, text: string, scoreWeight: string)

  /** A row of the questions table: its id, the test it belongs to, its
      text, its 1-based order in that test and its options. */
  datatype Question = Question(id: int, testId: int, text: string, order: int, options: seq<Choice>)

  /** The test catalog: the questions table, in stored row order. */
  datatype Catalog = Catalog(questions: seq<Question>)

  /** A registered user, as the user directory stores it. */
  datatype User = User(id: int, isBlocked: bool, isAdmin: bool)

  /** The user directory: telegram id to user record. */
  type Directory = map<int, User>

  /** The stored part of an answer besides its key. */
  datatype Answer = Answer(testId: int, optionId: int)

  /** The answer table, keyed by (user id, question id). */
  type AnswerTable = map<(int, int), Answer>

  /** A row of a user's full answer history: the answer joined with its
      test's slug, the question text and the chosen option's text and weight. */
  datatype HistoryRow = HistoryRow(testSlug: string, questionText: string, optionText: string, scoreWeight: string)

  // ---------------------------------------------------------------- users

  /** `findByTelegramId`: the user record, or null when there is none. */
  function FindByTelegramId(users: Directory, telegramId: int): (r: Option<User>)
    ensures r.Some? <==> telegramId in users
    ensures r.Some? ==> r.value == users[telegramId]
  {
    if telegramId in users then Some(users[telegramId]) else None
  }

  // -------------------------------------------------------------- catalog

  /** The questions of a test, in stored row order. */
  function QuestionsIn(rows: seq<Question>, testId: int): (qs: seq<Question>)
    ensures |qs| <= |rows|
    ensures forall i :: 0 <= i < |qs| ==> qs[i] in rows && qs[i].testId == testId
    ensures forall q :: q in rows && q.testId == testId ==> q in qs
  {
    if rows == [] then []
    else
      var rest := QuestionsIn(rows[1..], testId);
      assert forall i :: 0 <= i < |rest| ==> rest[i] in rows;
      if rows[0].testId == testId then [rows[0]] + rest else rest
  }

  function Questions(c: Catalog, testId: int): seq<Question> {
    QuestionsIn(c.questions, testId)
  }

  /** `getTotalQuestionsCount`: the number of questions of a test. */
  function TotalQuestions(c: Catalog, testId: int): (n: nat)
    ensures n <= |c.questions|
    ensures n == 0 <==> forall i :: 0 <= i < |c.questions| ==> c.questions[i].testId != testId
  {
    var qs := Questions(c, testId);
    assert qs != [] ==> exists i :: 0 <= i < |c.questions| && c.questions[i] == qs[0];
    |Questions(c, testId)|
  }

  /** The first question of `qs` whose order is `order`, if any. */
  function FindByOrder(qs: seq<Question>, order: int): (r: Option<Question>)
    ensures r.None? <==> forall i :: 0 <= i < |qs| ==> qs[i].order != order
    ensures r.Some? ==> exists i :: 0 <= i < |qs| && qs[i] == r.value && qs[i].order == order
                          && forall j :: 0 <= j < i ==> qs[j].order != order
  {
    if qs == [] then None
    else if qs[0].order == order then Some(qs[0])
    else
      var r := FindByOrder(qs[1..], order);
      assert forall i :: 1 <= i < |qs| ==> qs[i] == qs[1..][i - 1];
      r
  }

  /** `getQuestion($testId, $order)`: the first question of the test stored
      with that order, if any. */
  function GetQuestion(c: Catalog, testId: int, order: int): (r: Option<Question>)
    ensures r.None? <==> forall i :: 0 <= i < |c.questions| ==>
                           c.questions[i].testId != testId || c.questions[i].order != order
    ensures r.Some? ==> r.value in c.questions && r.value.testId == testId && r.value.order == order
  {
    FindByOrder(Questions(c, testId), order)
  }

  /** The first row of `rows` with the given id, if any. */
  function FindById(rows: seq<Question>, questionId: int): (r: Option<Question>)
    ensures r.None? <==> forall i :: 0 <= i < |rows| ==> rows[i].id != questionId
    ensures r.Some? ==> r.value in rows && r.value.id == questionId
  {
    if rows == [] then None
    else if rows[0].id == questionId then Some(rows[0])
    else
      var r := FindById(rows[1..], questionId);
      assert forall i :: 1 <= i < |rows| ==> rows[i] == rows[1..][i - 1];
      r
  }

  /** `getQuestionOrder($questionId)`: the order of the question with that id,
      looked up by id alone, whatever test it belongs to; an id the catalog
      does not hold has none. */
  function GetQuestionOrder(c: Catalog, questionId: int): (r: Option<int>)
    ensures r.None? <==> forall i :: 0 <= i < |c.questions| ==> c.questions[i].id != questionId
    ensures r.Some? ==> exists q :: q in c.questions && q.id == questionId && q.order == r.value
  {
    match FindById(c.questions, questionId)
    case None => None
    case Some(q) => Some(q.order)
  }

  /** Some question of `qs` has order `k`. */
  predicate HasOrder(qs: seq<Question>, k: int) {
    exists i :: 0 <= i < |qs| && qs[i].order == k
  }

  /** The orders of `qs` are exactly 1, 2, ..., |qs|, each once, in any row
      order. */
  predicate Dense(qs: seq<Question>) {
    && (forall i :: 0 <= i < |qs| ==> 1 <= qs[i].order <= |qs|)
    && (forall k :: 1 <= k <= |qs| ==> HasOrder(qs, k))
    && (forall i, j :: 0 <= i < |qs| && 0 <= j < |qs| && qs[i].order == qs[j].order ==> i == j)
  }

  /** The catalog invariant: the orders of every test are 1, 2, ..., N, each
      once, however its rows are stored, and the question id is a key of the
      table. */
  ghost predicate WellFormed(c: Catalog) {
    && (forall t :: Dense(Questions(c, t)))
    && (forall i, j :: 0 <= i < |c.questions| && 0 <= j < |c.questions| && c.questions[i].id == c.questions[j].id ==> i == j)
  }

  /** In a dense test a question with order k is found exactly when
      1 <= k <= N, and it is the test's one question with that order. */
  lemma FindByOrderDense(qs: seq<Question>, k: int)
    requires Dense(qs)
    ensures FindByOrder(qs, k).Some? <==> 1 <= k <= |qs|
    ensures forall q :: q in qs && q.order == k ==> FindByOrder(qs, k) == Some(q)
  {
    if 1 <= k <= |qs| {
      assert HasOrder(qs, k);
    }
  }

  /** In a well-formed catalog, looking a stored question's order up by its
      id gives that question's own order. */
  lemma GetQuestionOrderOf(c: Catalog, q: Question)
    requires WellFormed(c) && q in c.questions
    ensures GetQuestionOrder(c, q.id) == Some(q.order)
  {
    var r := FindById(c.questions, q.id);
    var j :| 0 <= j < |c.questions| && c.questions[j] == q;
    var j' :| 0 <= j' < |c.questions| && c.questions[j'] == r.value;
  }

  // -------------------------------------------------------------- answers

  /** `upsert` (INSERT ... ON DUPLICATE KEY UPDATE): afterwards the table
      holds exactly one answer for (user, question), the new one, and every
      other entry is as it was. */
  function Upsert(table: AnswerTable, userId: int, questionId: int, a: Answer): (r: AnswerTable)
    ensures (userId, questionId) in r && r[(userId, questionId)] == a
    ensures r.Keys == table.Keys + {(userId, questionId)}
    ensures forall k :: k in table && k != (userId, questionId) ==> r[k] == table[k]
  {
    table[(userId, questionId) := a]
  }

  /** Submitting again overwrites: the later answer wins and no entry is added. */
  lemma UpsertLastWriteWins(table: AnswerTable, userId: int, questionId: int, a1: Answer, a2: Answer)
    ensures Upsert(Upsert(table, userId, questionId, a1), userId, questionId, a2) == Upsert(table, userId, questionId, a2)
  {
  }

  /** Repeating the same upsert changes nothing further. */
  lemma UpsertIdempotent(table: AnswerTable, userId: int, questionId: int, a: Answer)
    ensures Upsert(Upsert(table, userId, questionId, a), userId, questionId, a) == Upsert(table, userId, questionId, a)
  {
  }
}
