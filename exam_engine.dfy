/** The exam session engine: where a user is in a test (derived from the
    catalog, from the order a `nav` request carries or from the order the
    catalog holds for the question an `answer` request names; never
    stored), the answer upsert, and the aggregation of a user's answer
    history for analysis. */
module Exam {
  import opened Results
  import opened Repositories

  /** The runtime exceptions the engine raises, plus the case of a question
      id the catalog does not hold (the repository query is not modelled;
      the model takes that case to be a fault). */
  datatype Fault = NotRegistered | QuestionNotFound(order: int) | UnknownQuestion(questionId: int)

  /** The array `getQuestionByOrder` returns. */
  datatype QuestionView = QuestionView(id: int, testId: int, text: string, order: int, options: seq<Choice>, total: nat)

  /** The view of a stored question, shown as a question of test `testId`. */
  function ViewOf(testId: int, q: Question, total: nat): QuestionView {
    QuestionView(q.id, testId, q.text, q.order, q.options, total)
  }

  // ------------------------------------------------------------ navigation

  /** `getQuestionByOrder`: the view of the test's question at `order`, or
      "question not found". */
  function GetQuestionByOrder(c: Catalog, testId: int, order: int): (r: Result<QuestionView, Fault>)
    ensures r.Err? <==> GetQuestion(c, testId, order).None?
    ensures r.Err? ==> r.error == QuestionNotFound(order)
    ensures r.Ok? ==> r.value.order == order && r.value.testId == testId && r.value.total == TotalQuestions(c, testId)
    ensures r.Ok? ==> Question(r.value.id, testId, r.value.text, order, r.value.options) in Questions(c, testId)
  {
    match GetQuestion(c, testId, order)
    case None => Err(QuestionNotFound(order))
    case Some(q) => Ok(QuestionView(q.id, testId, q.text, order, q.options, TotalQuestions(c, testId)))
  }

  /** `start`: a registered user gets the question at order 1. */
  function Start(c: Catalog, users: Directory, telegramId: int, testId: int): (r: Result<QuestionView, Fault>)
    ensures telegramId !in users ==> r == Err(NotRegistered)
    ensures telegramId in users ==> r == GetQuestionByOrder(c, testId, 1)
  {
    match FindByTelegramId(users, telegramId)
    case None => Err(NotRegistered)
    case Some(_) => GetQuestionByOrder(c, testId, 1)
  }

  /** `getNext`: the question after the one with id `questionId`, or `None`
      when the test is completed. The order is looked up from the question id
      alone and compared with the total of `testId`; the user id is not read. */
  function GetNext(c: Catalog, telegramId: int, testId: int, questionId: int): (r: Result<Option<QuestionView>, Fault>)
    ensures GetQuestionOrder(c, questionId).None? ==> r == Err(UnknownQuestion(questionId))
    ensures (r.Ok? && r.value.None?) <==>
              GetQuestionOrder(c, questionId).Some? && GetQuestionOrder(c, questionId).value + 1 > TotalQuestions(c, testId)
    ensures r.Ok? && r.value.Some? ==>
              r.value.value.order == GetQuestionOrder(c, questionId).value + 1 && r.value.value.testId == testId
    ensures GetQuestionOrder(c, questionId).Some? && GetQuestionOrder(c, questionId).value + 1 <= TotalQuestions(c, testId) ==>
              (r.Ok? <==> GetQuestion(c, testId, GetQuestionOrder(c, questionId).value + 1).Some?)
    ensures r.Err? && GetQuestionOrder(c, questionId).Some? ==>
              r.error == QuestionNotFound(GetQuestionOrder(c, questionId).value + 1)
    ensures r.Ok? && r.value.Some? ==>
              GetQuestionByOrder(c, testId, GetQuestionOrder(c, questionId).value + 1) == Ok(r.value.value)
  {
    match GetQuestionOrder(c, questionId)
    case None => Err(UnknownQuestion(questionId))
    case Some(current) =>
      var next := current + 1;
      if next > TotalQuestions(c, testId) then Ok(None)
      else
        match GetQuestionByOrder(c, testId, next)
        case Err(e) => Err(e)
        case Ok(v) => Ok(Some(v))
  }

  /** In a well-formed catalog exactly the orders 1..N have a question, and
      the view at order k is that of the test's question with order k;
      order 0 and order N + 1 are "question not found". */
  lemma QuestionByOrderDense(c: Catalog, testId: int, k: int)
    requires WellFormed(c)
    ensures GetQuestionByOrder(c, testId, k).Ok? <==> 1 <= k <= TotalQuestions(c, testId)
    ensures forall q :: q in Questions(c, testId) && q.order == k ==>
              GetQuestionByOrder(c, testId, k) == Ok(ViewOf(testId, q, TotalQuestions(c, testId)))
    ensures k == 0 || k == TotalQuestions(c, testId) + 1 ==> GetQuestionByOrder(c, testId, k) == Err(QuestionNotFound(k))
  {
    assert Dense(Questions(c, testId));
    FindByOrderDense(Questions(c, testId), k);
  }

  /** A registered user starts at the question with order 1, which exists
      exactly when the test has questions; an unregistered user is refused. */
  lemma StartDense(c: Catalog, users: Directory, telegramId: int, testId: int)
    requires WellFormed(c)
    ensures Start(c, users, telegramId, testId).Ok? <==> telegramId in users && TotalQuestions(c, testId) > 0
    ensures forall q :: q in Questions(c, testId) && q.order == 1 && telegramId in users ==>
              Start(c, users, telegramId, testId) == Ok(ViewOf(testId, q, TotalQuestions(c, testId)))
  {
    QuestionByOrderDense(c, testId, 1);
  }

  /** From a known current order `k` in a dense requested test, `getNext`
      answers, and reports completion exactly past the test's total. */
  lemma NextAfterOrder(c: Catalog, telegramId: int, testId: int, questionId: int, k: int)
    requires GetQuestionOrder(c, questionId) == Some(k) && k >= 0 && Dense(Questions(c, testId))
    ensures var r := GetNext(c, telegramId, testId, questionId);
      r.Ok? && (r.value.None? <==> k + 1 > TotalQuestions(c, testId))
  {
    if k + 1 <= TotalQuestions(c, testId) {
      FindByOrderDense(Questions(c, testId), k + 1);
    }
  }

  /** The view `getNext` returns after order `k` is that of the requested
      test's question with order k + 1. */
  lemma NextViewAfterOrder(c: Catalog, telegramId: int, testId: int, questionId: int, k: int)
    requires GetQuestionOrder(c, questionId) == Some(k) && Dense(Questions(c, testId))
    ensures var r := GetNext(c, telegramId, testId, questionId);
      forall q' :: q' in Questions(c, testId) && q'.order == k + 1 ==>
        r == Ok(Some(ViewOf(testId, q', TotalQuestions(c, testId))))
  {
    var qs := Questions(c, testId);
    var r := GetNext(c, telegramId, testId, questionId);
    forall q' | q' in qs && q'.order == k + 1
      ensures r == Ok(Some(ViewOf(testId, q', |qs|)))
    {
      var j :| 0 <= j < |qs| && qs[j] == q';
      assert k + 1 <= |qs|;
      FindByOrderDense(qs, k + 1);
      assert GetQuestion(c, testId, k + 1) == Some(q');
      assert GetQuestionByOrder(c, testId, k + 1) == Ok(ViewOf(testId, q', |qs|));
      assert r.Ok? && r.value.Some?;
      assert r.value.value == ViewOf(testId, q', |qs|);
    }
  }

  /** From a question of test `owner` with order k, asking for the next
      question of test `testId` gives the question of `testId` with order
      k + 1, or completion once k + 1 exceeds that test's total. With
      `owner == testId` the last question leads to completion; with another
      owner the engine still answers, from the other test's orders. */
  lemma NextQuestion(c: Catalog, telegramId: int, owner: int, q: Question, testId: int)
    requires WellFormed(c) && q in Questions(c, owner)
    ensures var r := GetNext(c, telegramId, testId, q.id);
      && r.Ok?
      && (r.value.None? <==> q.order + 1 > TotalQuestions(c, testId))
      && (forall q' :: q' in Questions(c, testId) && q'.order == q.order + 1 ==>
            r.value == Some(ViewOf(testId, q', TotalQuestions(c, testId))))
  {
    assert q in c.questions;
    GetQuestionOrderOf(c, q);
    assert Dense(Questions(c, testId));
    assert Dense(Questions(c, owner));
    var i :| 0 <= i < |Questions(c, owner)| && Questions(c, owner)[i] == q;
    NextAfterOrder(c, telegramId, testId, q.id, q.order);
    NextViewAfterOrder(c, telegramId, testId, q.id, q.order);
  }

  // --------------------------------------------------------------- answers

  /** The user id an answer is stored under: `(int)$user['id']`, which is 0
      when the telegram id is not registered (null cast to int). */
  function UserKey(users: Directory, telegramId: int): (id: int)
    ensures telegramId in users ==> id == users[telegramId].id
    ensures telegramId !in users ==> id == 0
  {
    match FindByTelegramId(users, telegramId)
    case Some(u) => u.id
    case None => 0
  }

  // ----------------------------------------------------------- aggregation

  /** One entry of the analysis payload. The weight stays the stored text. */
  datatype Entry = Entry(question: string, selectedOption: string, weights: string)

  datatype UserContext = UserContext(id: int, completedAt: string)

  /** The payload handed to the analysis service: test slug to entries. */
  datatype Payload = Payload(userContext: UserContext, testsData: map<string, seq<Entry>>)

  function EntryOf(row: HistoryRow): Entry {
    Entry(row.questionText, row.optionText, row.scoreWeight)
  }

  /** The slugs that occur in the history. */
  function SlugsOf(rows: seq<HistoryRow>): set<string> {
    set i | 0 <= i < |rows| :: rows[i].testSlug
  }

  /** The entries of the rows with the given slug, in row order. */
  function EntriesFor(rows: seq<HistoryRow>, slug: string): (es: seq<Entry>)
    ensures |es| <= |rows|
    ensures forall e :: e in es ==> exists i :: 0 <= i < |rows| && rows[i].testSlug == slug && EntryOf(rows[i]) == e
  {
    if rows == [] then []
    else
      var last := rows[|rows| - 1];
      EntriesFor(rows[..|rows| - 1], slug) + (if last.testSlug == slug then [EntryOf(last)] else [])
  }

  /** The number of rows with the given slug. */
  function CountSlug(rows: seq<HistoryRow>, slug: string): nat {
    if rows == [] then 0 else (if rows[0].testSlug == slug then 1 else 0) + CountSlug(rows[1..], slug)
  }

  lemma {:induction false} CountSlugSnoc(rows: seq<HistoryRow>, slug: string)
    requires rows != []
    ensures CountSlug(rows, slug) == CountSlug(rows[..|rows| - 1], slug) + (if rows[|rows| - 1].testSlug == slug then 1 else 0)
  {
    if |rows| > 1 {
      CountSlugSnoc(rows[1..], slug);
      assert rows[1..][..|rows[1..]| - 1] == rows[..|rows| - 1][1..];
    }
  }

  lemma {:induction false} NoSlugNoEntries(rows: seq<HistoryRow>, slug: string)
    requires slug !in SlugsOf(rows)
    ensures EntriesFor(rows, slug) == []
  {
    if rows != [] {
      var prefix := rows[..|rows| - 1];
      assert SlugsOf(prefix) <= SlugsOf(rows) by {
        forall s | s in SlugsOf(prefix) ensures s in SlugsOf(rows) {
          var i :| 0 <= i < |prefix| && prefix[i].testSlug == s;
          assert rows[i].testSlug == s;
        }
      }
      assert rows[|rows| - 1].testSlug in SlugsOf(rows);
      NoSlugNoEntries(prefix, slug);
    }
  }

  /** Per slug, the payload holds one entry per history row with that slug. */
  lemma {:induction false} EntriesForLength(rows: seq<HistoryRow>, slug: string)
    ensures |EntriesFor(rows, slug)| == CountSlug(rows, slug)
  {
    if rows != [] {
      EntriesForLength(rows[..|rows| - 1], slug);
      CountSlugSnoc(rows, slug);
    }
  }

  /** Row i contributes its own entry under its own slug, at its rank among
      the rows with that slug: the entries keep row order. */
  lemma {:induction false} EntryAtRank(rows: seq<HistoryRow>, i: int)
    requires 0 <= i < |rows|
    ensures CountSlug(rows[..i], rows[i].testSlug) < |EntriesFor(rows, rows[i].testSlug)|
    ensures EntriesFor(rows, rows[i].testSlug)[CountSlug(rows[..i], rows[i].testSlug)] == EntryOf(rows[i])
  {
    var slug := rows[i].testSlug;
    var n := |rows|;
    var prefix := rows[..n - 1];
    if i == n - 1 {
      EntriesForLength(prefix, slug);
      assert rows[..i] == prefix;
    } else {
      EntryAtRank(prefix, i);
      assert prefix[..i] == rows[..i];
    }
  }

  /** A slug is a key of the payload exactly when some history row has it;
      a test the user has no answers for gets no key. */
  lemma SlugKeyIffRows(rows: seq<HistoryRow>, slug: string)
    ensures slug in SlugsOf(rows) <==> CountSlug(rows, slug) > 0
  {
    EntriesForLength(rows, slug);
    if slug in SlugsOf(rows) {
      var i :| 0 <= i < |rows| && rows[i].testSlug == slug;
      EntryAtRank(rows, i);
    } else {
      NoSlugNoEntries(rows, slug);
    }
  }

  // ---------------------------------------------------------------- engine

  /** The engine object: the catalog and user directory it reads, and the
      answer table it writes. */
  class ExamEngine {
    const catalog: Catalog
    const users: Directory
    var answers: AnswerTable

    constructor (catalog: Catalog, users: Directory, answers: AnswerTable)
      ensures this.catalog == catalog && this.users == users && this.answers == answers
    {
      this.catalog := catalog;
      this.users := users;
      this.answers := answers;
    }

    /** `saveAnswer`: upserts the answer under the user's id, without any
        registration check, so an unknown telegram id writes under id 0. */
    method SaveAnswer(telegramId: int, testId: int, questionId: int, optionId: int)
      modifies this
      ensures answers == Upsert(old(answers), UserKey(users, telegramId), questionId, Answer(testId, optionId))
    {
      var userId := UserKey(users, telegramId);
      answers := Upsert(answers, userId, questionId, Answer(testId, optionId));
    }

    /** `aggregateResultsForAI`: groups the history the store returns for the
        user's id by test slug, in row order. The store's query is
        `fetchHistory`; the timestamp is `completedAt`. */
    method AggregateResultsForAI(telegramId: int, fetchHistory: int -> seq<HistoryRow>, completedAt: string)
      returns (payload: Payload)
      ensures payload.userContext == UserContext(telegramId, completedAt)
      ensures payload.testsData.Keys == SlugsOf(fetchHistory(UserKey(users, telegramId)))
      ensures forall s :: s in payload.testsData ==>
                payload.testsData[s] == EntriesFor(fetchHistory(UserKey(users, telegramId)), s)
    {
      var userId := UserKey(users, telegramId);
      var history := fetchHistory(userId);
      var testsData: map<string, seq<Entry>> := map[];
      for i := 0 to |history|
        invariant testsData.Keys == SlugsOf(history[..i])
        invariant forall s :: s in testsData ==> testsData[s] == EntriesFor(history[..i], s)
      {
        var slug := history[i].testSlug;
        assert history[..i + 1][..i] == history[..i];
        assert SlugsOf(history[..i + 1]) == SlugsOf(history[..i]) + {slug} by {
          assert forall j :: 0 <= j < i ==> history[..i + 1][j] == history[..i][j];
        }
        if slug !in testsData {
          NoSlugNoEntries(history[..i], slug);
          testsData := testsData[slug := []];
        }
        testsData := testsData[slug := testsData[slug] + [EntryOf(history[i])]];
      }
      assert history[..|history|] == history;
      payload := Payload(UserContext(telegramId, completedAt), testsData);
    }
  }
}
