/** The callback handler: decodes inline-keyboard callback data into an
    action, drives the engine for it, and records what it sends to the chat
    as an event log. */
module Callback {
  import opened Results
  import opened Php
  import opened Repositories
  import opened Exam

  /** The actions callback data can name; anything else is `Unrecognised`. */
  datatype Command =
    | StartTest(testId: int)
    | Navigate(testId: int, order: int)
    | SubmitAnswer(testId: int, questionId: int, optionId: int)
    | ConfirmAi
    | Unrecognised
  {
    /** The k-th numeric field of the command (k from 1). */
    function Value(k: nat): int {
      match this
      case StartTest(t) => t
      case Navigate(t, o) => if k == 1 then t else o
      case SubmitAnswer(t, q, o) => if k == 1 then t else if k == 2 then q else o
      case _ => 0
    }
  }

  /** What the handler does towards the chat, in the order it does it. */
  datatype Event =
    | SentQuestion(chatId: int, view: QuestionView)                  // sendQuestion
    | EditedQuestion(chatId: int, messageId: int, view: QuestionView) // updateQuestionUI
    | ShowedCompletion(chatId: int, messageId: int, testId: int)      // showCompletionMenu
    | SentAnalysisNotice(chatId: int)                                // triggerAIAnalysis
    | AnsweredInvalid(queryId: string)                               // answerCallback with the "invalid command" text
    | Acknowledged(queryId: string)                                  // answerCallback without text

  /** The parts of a callback update the handler reads. */
  datatype Request = Request(callbackData: Option<string>, chatId: int, messageId: int, callbackQueryId: string)

  /** The effect of one request: the answer table afterwards, the events
      sent, and the exception that escaped, if any. */
  datatype Step = Step(answers: AnswerTable, events: seq<Event>, fault: Option<Fault>)

  // ------------------------------------------------------------- decoding

  /** `!$callbackData`: null, the empty string and "0" are all falsy, so
      any data of two characters or more is handled. */
  predicate Ignored(data: Option<string>)
    ensures Ignored(data) ==> data.None? || |data.value| <= 1
    ensures Some("0") == data ==> Ignored(data)
  {
    data.None? || data.value == "" || data.value == "0"
  }

  /** The action: the text before the first ':'. */
  function Action(data: string): string {
    data[..IndexOf(data, ':')]
  }

  /** `(int)$parts[k]`; a missing field reads as null, which casts to 0. */
  function Param(parts: seq<string>, k: nat): (v: int)
    ensures k >= |parts| ==> v == 0
    ensures k < |parts| && AllDigits(parts[k]) ==> v == DigitsValue(parts[k])
  {
    if k < |parts| then IntCast(parts[k]) else 0
  }

  /** The `match` over the action, given the ':'-separated fields. */
  function Decode(parts: seq<string>): (cmd: Command)
    requires |parts| >= 1
    ensures cmd.StartTest? <==> parts[0] == "start_test"
    ensures cmd.Navigate? <==> parts[0] == "nav"
    ensures cmd.SubmitAnswer? <==> parts[0] == "answer"
    ensures cmd.ConfirmAi? <==> parts[0] == "confirm_ai"
    ensures cmd.StartTest? ==> cmd.testId == Param(parts, 1)
    ensures cmd.Navigate? ==> cmd.testId == Param(parts, 1) && cmd.order == Param(parts, 2)
    ensures cmd.SubmitAnswer? ==>
              cmd.testId == Param(parts, 1) && cmd.questionId == Param(parts, 2) && cmd.optionId == Param(parts, 3)
  {
    var action := parts[0];
    if action == "start_test" then StartTest(Param(parts, 1))
    else if action == "nav" then Navigate(Param(parts, 1), Param(parts, 2))
    else if action == "answer" then SubmitAnswer(Param(parts, 1), Param(parts, 2), Param(parts, 3))
    else if action == "confirm_ai" then ConfirmAi
    else Unrecognised
  }

  /** The command `handle` selects for non-empty callback data. */
  function Parse(data: string): (cmd: Command)
    ensures IndexOf(data, ':') == |data| ==> cmd == Decode([data])
  {
    ExplodeHead(data, ':');
    Decode(Explode(data, ':'))
  }

  /** The action selected is the one named before the first ':'; any other
      text there is unrecognised. */
  lemma ParseSelectsAction(data: string)
    ensures Parse(data).StartTest? <==> Action(data) == "start_test"
    ensures Parse(data).Navigate? <==> Action(data) == "nav"
    ensures Parse(data).SubmitAnswer? <==> Action(data) == "answer"
    ensures Parse(data).ConfirmAi? <==> Action(data) == "confirm_ai"
    ensures Parse(data).Unrecognised? <==> Action(data) !in {"start_test", "nav", "answer", "confirm_ai"}
  {
    ExplodeHead(data, ':');
  }

  /** The fields of the callback data for a command, in the layout `handle`
      decodes (the keyboards that build it are not modelled). */
  function Fields(cmd: Command): (parts: seq<string>)
    requires !cmd.Unrecognised?
    ensures |parts| >= 1
  {
    match cmd
    case StartTest(t) => ["start_test", IntToString(t)]
    case Navigate(t, k) => ["nav", IntToString(t), IntToString(k)]
    case SubmitAnswer(t, q, o) => ["answer", IntToString(t), IntToString(q), IntToString(o)]
    case ConfirmAi => ["confirm_ai"]
  }

  /** Callback data for a command: its fields joined with ':'. */
  function Render(cmd: Command): string
    requires !cmd.Unrecognised?
  {
    Implode(Fields(cmd), ':')
  }

  lemma DecodeFields(cmd: Command)
    requires !cmd.Unrecognised?
    ensures Decode(Fields(cmd)) == cmd
  {
    match cmd {
      case StartTest(t) =>
        IntCastIntToString(t);
      case Navigate(t, k) =>
        IntCastIntToString(t);
        IntCastIntToString(k);
      case SubmitAnswer(t, q, o) =>
        IntCastIntToString(t);
        IntCastIntToString(q);
        IntCastIntToString(o);
      case ConfirmAi =>
    }
  }

  /** Decoding the data of any command gives that command back, and such data
      is never ignored. */
  lemma ParseRender(cmd: Command)
    requires !cmd.Unrecognised?
    ensures !Ignored(Some(Render(cmd)))
    ensures Parse(Render(cmd)) == cmd
  {
    var parts := Fields(cmd);
    forall k | 1 <= k < |parts| ensures ':' !in parts[k] {
      IntToStringHasNo(cmd.Value(k), ':');
    }
    ExplodeImplode(parts, ':');
    assert |Render(cmd)| >= |parts[0]| >= 3;
    DecodeFields(cmd);
  }

  // ----------------------------------------------------------- dispatching

  /** `initiateTest`: the first question is sent, unless `start` raises. */
  function StartStep(c: Catalog, users: Directory, answers: AnswerTable, chatId: int, t: int): (s: Step)
    ensures s.answers == answers
    ensures s.fault.None? <==> Start(c, users, chatId, t).Ok?
    ensures s.fault.Some? ==> s.fault.value == Start(c, users, chatId, t).error && s.events == []
    ensures s.fault.None? ==> s.events == [SentQuestion(chatId, Start(c, users, chatId, t).value)]
  {
    match Start(c, users, chatId, t)
    case Err(e) => Step(answers, [], Some(e))
    case Ok(v) => Step(answers, [SentQuestion(chatId, v)], None)
  }

  /** `navigateTest`: the shown question is replaced by the one at order k. */
  function NavigateStep(c: Catalog, answers: AnswerTable, chatId: int, messageId: int, t: int, k: int): (s: Step)
    ensures s.answers == answers
    ensures s.fault.None? <==> GetQuestion(c, t, k).Some?
    ensures s.fault.Some? ==> s.fault.value == QuestionNotFound(k) && s.events == []
    ensures s.fault.None? ==> s.events == [EditedQuestion(chatId, messageId, GetQuestionByOrder(c, t, k).value)]
  {
    match GetQuestionByOrder(c, t, k)
    case Err(e) => Step(answers, [], Some(e))
    case Ok(v) => Step(answers, [EditedQuestion(chatId, messageId, v)], None)
  }

  /** `processAnswer`: the answer is saved first; then the next question
      replaces the shown one, or the completion menu is shown. */
  function AnswerStep(c: Catalog, users: Directory, answers: AnswerTable,
                      chatId: int, messageId: int, t: int, q: int, o: int): (s: Step)
    ensures s.answers == Upsert(answers, UserKey(users, chatId), q, Answer(t, o))
    ensures s.fault.None? <==> GetNext(c, chatId, t, q).Ok?
    ensures s.fault.Some? ==> s.fault.value == GetNext(c, chatId, t, q).error && s.events == []
    ensures s.fault.None? ==> |s.events| == 1 && (s.events[0].ShowedCompletion? <==> GetNext(c, chatId, t, q).value.None?)
  {
    var saved := Upsert(answers, UserKey(users, chatId), q, Answer(t, o));
    match GetNext(c, chatId, t, q)
    case Err(e) => Step(saved, [], Some(e))
    case Ok(None) => Step(saved, [ShowedCompletion(chatId, messageId, t)], None)
    case Ok(Some(v)) => Step(saved, [EditedQuestion(chatId, messageId, v)], None)
  }

  /** The effect of the branch `handle` dispatches to. */
  function Dispatch(c: Catalog, users: Directory, answers: AnswerTable,
                    chatId: int, messageId: int, queryId: string, cmd: Command): (s: Step)
    ensures s.fault.Some? ==> s.events == []
    ensures forall j :: 0 <= j < |s.events| ==> !s.events[j].Acknowledged?
    ensures !cmd.SubmitAnswer? ==> s.answers == answers
    ensures cmd.Unrecognised? ==> s == Step(answers, [AnsweredInvalid(queryId)], None)
  {
    match cmd
    case StartTest(t) => StartStep(c, users, answers, chatId, t)
    case Navigate(t, k) => NavigateStep(c, answers, chatId, messageId, t, k)
    case SubmitAnswer(t, q, o) => AnswerStep(c, users, answers, chatId, messageId, t, q, o)
    case ConfirmAi => Step(answers, [SentAnalysisNotice(chatId)], None)
    case Unrecognised => Step(answers, [AnsweredInvalid(queryId)], None)
  }

  /** `handle`: ignore falsy data; otherwise dispatch, then acknowledge the
      callback if the branch returned normally. So null, empty or "0" data
      triggers nothing at all; a handled request is acknowledged exactly
      once, as its last event, when no fault escapes, and a fault escapes
      before anything is sent. */
  function Respond(c: Catalog, users: Directory, answers: AnswerTable, req: Request): (s: Step)
    ensures Ignored(req.callbackData) ==> s == Step(answers, [], None)
    ensures s.fault.None? && !Ignored(req.callbackData) ==>
              && |s.events| >= 1 && s.events[|s.events| - 1] == Acknowledged(req.callbackQueryId)
              && forall j :: 0 <= j < |s.events| - 1 ==> !s.events[j].Acknowledged?
    ensures s.fault.Some? ==> s.events == []
  {
    if Ignored(req.callbackData) then Step(answers, [], None)
    else
      var s := Dispatch(c, users, answers, req.chatId, req.messageId, req.callbackQueryId, Parse(req.callbackData.value));
      if s.fault.None? then s.(events := s.events + [Acknowledged(req.callbackQueryId)]) else s
  }

  lemma RespondDispatches(c: Catalog, users: Directory, answers: AnswerTable, req: Request)
    requires !Ignored(req.callbackData)
    ensures var s := Dispatch(c, users, answers, req.chatId, req.messageId, req.callbackQueryId, Parse(req.callbackData.value));
      Respond(c, users, answers, req) == if s.fault.None? then s.(events := s.events + [Acknowledged(req.callbackQueryId)]) else s
  {
  }

  /** Only the answer action writes to the answer table. */
  lemma OnlyAnswersWrite(c: Catalog, users: Directory, answers: AnswerTable, req: Request)
    ensures Respond(c, users, answers, req).answers != answers ==>
              !Ignored(req.callbackData) && Parse(req.callbackData.value).SubmitAnswer?
  {
    if !Ignored(req.callbackData) {
      var cmd := Parse(req.callbackData.value);
      RespondDispatches(c, users, answers, req);
    }
  }

  /** `answer:t:q:o` stores the answer first, whatever follows, then asks for
      the question after `q`: the next question replaces the shown one, no
      next question shows the completion menu, a fault skips the rest. */
  lemma AnswerSavedThenNext(c: Catalog, users: Directory, answers: AnswerTable, req: Request, t: int, q: int, o: int)
    requires !Ignored(req.callbackData) && Parse(req.callbackData.value) == SubmitAnswer(t, q, o)
    ensures var s := Respond(c, users, answers, req);
      && s.answers == Upsert(answers, UserKey(users, req.chatId), q, Answer(t, o))
      && match GetNext(c, req.chatId, t, q)
         case Err(e) => s.events == [] && s.fault == Some(e)
         case Ok(None) => s.events == [ShowedCompletion(req.chatId, req.messageId, t), Acknowledged(req.callbackQueryId)] && s.fault == None
         case Ok(Some(v)) => s.events == [EditedQuestion(req.chatId, req.messageId, v), Acknowledged(req.callbackQueryId)] && s.fault == None
  {
    RespondDispatches(c, users, answers, req);
  }

  /** `nav:t:k` writes nothing and shows the question at order k, which in a
      well-formed catalog exists exactly for 1 <= k <= N. */
  lemma NavigateShowsOrder(c: Catalog, users: Directory, answers: AnswerTable, req: Request, t: int, k: int)
    requires WellFormed(c)
    requires !Ignored(req.callbackData) && Parse(req.callbackData.value) == Navigate(t, k)
    ensures var s := Respond(c, users, answers, req);
      && s.answers == answers
      && (s.fault.None? <==> 1 <= k <= TotalQuestions(c, t))
      && (s.fault.Some? ==> s.fault == Some(QuestionNotFound(k)) && s.events == [])
      && (forall q :: q in Questions(c, t) && q.order == k ==>
            s.events == [EditedQuestion(req.chatId, req.messageId, ViewOf(t, q, TotalQuestions(c, t))),
                         Acknowledged(req.callbackQueryId)])
  {
    RespondDispatches(c, users, answers, req);
    QuestionByOrderDense(c, t, k);
  }

  /** An unregistered user's `start_test` raises before anything is sent. */
  lemma StartNeedsRegistration(c: Catalog, users: Directory, answers: AnswerTable, req: Request, t: int)
    requires !Ignored(req.callbackData) && Parse(req.callbackData.value) == StartTest(t)
    requires req.chatId !in users
    ensures Respond(c, users, answers, req) == Step(answers, [], Some(NotRegistered))
  {
    RespondDispatches(c, users, answers, req);
  }

  /** An unrecognised action gets the "invalid command" answer and then the
      common acknowledgement as well. */
  lemma UnrecognisedAckedTwice(c: Catalog, users: Directory, answers: AnswerTable, req: Request)
    requires !Ignored(req.callbackData) && Parse(req.callbackData.value).Unrecognised?
    ensures Respond(c, users, answers, req) ==
              Step(answers, [AnsweredInvalid(req.callbackQueryId), Acknowledged(req.callbackQueryId)], None)
  {
    RespondDispatches(c, users, answers, req);
  }

  /** Answering a question of a test through its callback data saves the
      answer and moves on to the question with the next order, or, from the
      last question, to the completion menu. */
  lemma AnswerAdvancesOrCompletes(c: Catalog, users: Directory, answers: AnswerTable,
                                  chatId: int, messageId: int, queryId: string, t: int, q: Question, o: int)
    requires WellFormed(c) && q in Questions(c, t)
    ensures var s := Respond(c, users, answers, Request(Some(Render(SubmitAnswer(t, q.id, o))), chatId, messageId, queryId));
      var n := TotalQuestions(c, t);
      && s.answers == Upsert(answers, UserKey(users, chatId), q.id, Answer(t, o))
      && s.fault == None
      && 1 <= q.order <= n
      && (q.order == n ==> s.events == [ShowedCompletion(chatId, messageId, t), Acknowledged(queryId)])
      && (forall q' :: q' in Questions(c, t) && q'.order == q.order + 1 ==>
            s.events == [EditedQuestion(chatId, messageId, ViewOf(t, q', n)), Acknowledged(queryId)])
  {
    var req := Request(Some(Render(SubmitAnswer(t, q.id, o))), chatId, messageId, queryId);
    ParseRender(SubmitAnswer(t, q.id, o));
    AnswerSavedThenNext(c, users, answers, req, t, q.id, o);
    NextQuestion(c, chatId, t, q, t);
    assert Dense(Questions(c, t));
    var i :| 0 <= i < |Questions(c, t)| && Questions(c, t)[i] == q;
  }

  // ---------------------------------------------------------------- handler

  /** The handler object: the engine it drives and the events it has sent. */
  class CallbackHandler {
    const engine: ExamEngine
    var log: seq<Event>

    constructor (engine: ExamEngine)
      ensures this.engine == engine && log == []
    {
      this.engine := engine;
      log := [];
    }

    /** `handle`: the common acknowledgement is sent only when the dispatched
        branch returns normally; a fault propagates to the caller. */
    method Handle(request: Request) returns (fault: Option<Fault>)
      modifies this, engine
      ensures var s := Respond(engine.catalog, engine.users, old(engine.answers), request);
        engine.answers == s.answers && log == old(log) + s.events && fault == s.fault
    {
      if Ignored(request.callbackData) {
        return None;
      }
      var queryId := request.callbackQueryId;
      var cmd := Parse(request.callbackData.value);
      RespondDispatches(engine.catalog, engine.users, engine.answers, request);
      ghost var step := Dispatch(engine.catalog, engine.users, engine.answers, request.chatId, request.messageId, queryId, cmd);
      fault := Run(request.chatId, request.messageId, queryId, cmd);
      assert engine.answers == step.answers && log == old(log) + step.events && fault == step.fault;
      if fault.None? {
        log := log + [Acknowledged(queryId)];
        assert log == old(log) + (step.events + [Acknowledged(queryId)]);
      }
    }

    /** The `match` of `handle`: run the branch the action selects. */
    method Run(chatId: int, messageId: int, queryId: string, cmd: Command) returns (fault: Option<Fault>)
      modifies this, engine
      ensures var s := Dispatch(engine.catalog, engine.users, old(engine.answers), chatId, messageId, queryId, cmd);
        engine.answers == s.answers && log == old(log) + s.events && fault == s.fault
    {
      match cmd {
        case StartTest(t) =>
          fault := InitiateTest(chatId, t);
        case Navigate(t, k) =>
          fault := NavigateTest(chatId, messageId, t, k);
        case SubmitAnswer(t, q, o) =>
          fault := ProcessAnswer(chatId, messageId, t, q, o);
        case ConfirmAi =>
          TriggerAiAnalysis(chatId);
          fault := None;
        case Unrecognised =>
          log := log + [AnsweredInvalid(queryId)];
          fault := None;
      }
    }

    /** `initiateTest`: start the test and send its first question. */
    method InitiateTest(chatId: int, testId: int) returns (fault: Option<Fault>)
      modifies this
      ensures var s := StartStep(engine.catalog, engine.users, engine.answers, chatId, testId);
        log == old(log) + s.events && fault == s.fault
    {
      var started := Start(engine.catalog, engine.users, chatId, testId);
      match started {
        case Err(e) =>
          fault := Some(e);
        case Ok(v) =>
          log := log + [SentQuestion(chatId, v)];
          fault := None;
      }
    }

    /** `processAnswer`: save the answer, then show the next question or the
        completion menu. */
    method ProcessAnswer(chatId: int, messageId: int, testId: int, questionId: int, optionId: int)
      returns (fault: Option<Fault>)
      modifies this, engine
      ensures var s := AnswerStep(engine.catalog, engine.users, old(engine.answers), chatId, messageId, testId, questionId, optionId);
        engine.answers == s.answers && log == old(log) + s.events && fault == s.fault
    {
      engine.SaveAnswer(chatId, testId, questionId, optionId);
      var next := GetNext(engine.catalog, chatId, testId, questionId);
      match next {
        case Err(e) =>
          fault := Some(e);
        case Ok(None) =>
          log := log + [ShowedCompletion(chatId, messageId, testId)];
          fault := None;
        case Ok(Some(v)) =>
          log := log + [EditedQuestion(chatId, messageId, v)];
          fault := None;
      }
    }

    /** `navigateTest`: show the question at the requested order. */
    method NavigateTest(chatId: int, messageId: int, testId: int, order: int) returns (fault: Option<Fault>)
      modifies this
      ensures var s := NavigateStep(engine.catalog, engine.answers, chatId, messageId, testId, order);
        log == old(log) + s.events && fault == s.fault
    {
      var shown := GetQuestionByOrder(engine.catalog, testId, order);
      match shown {
        case Err(e) =>
          fault := Some(e);
        case Ok(v) =>
          log := log + [EditedQuestion(chatId, messageId, v)];
          fault := None;
      }
    }

    /** `triggerAIAnalysis`: tell the user the analysis has started. */
    method TriggerAiAnalysis(chatId: int)
      modifies this
      ensures log == old(log) + [SentAnalysisNotice(chatId)]
    {
      log := log + [SentAnalysisNotice(chatId)];
    }
  }
}
