/** The questions the hook asks a person: in the tray when one listens, else in the window where it may open, else
    to no one; one at a time through the serializer, or as they come without it. Asks, answers, timers, waits and
    the close interleave in any order. */
module LivePrompt {
  import opened Foundations

  datatype Choice = Once | Fifteen | Hour | Tomorrow | Always | Ask | Quiet

  /** `offers` holds what the workspace lets the person choose; keeping it blocked is always offered. */
  datatype Question = Question(action: string, offers: set<Choice>, reasonMin: nat, timeout: nat)

  datatype Answer =
    | Allow(lasts: Choice, reason: string)
    | AskAdmin(reason: string)
    | KeepBlocked
    | Deny
    | Unavailable(later: bool)

  /** The tray's form as it was read: an unreadable choice is None, and an unreadable reason is marked. */
  datatype Form = Form(action: string, choice: Option<Choice>, reason: string, readable: bool)

  datatype Outcome = Gone | Invalid | NotOffered | ReasonShort | Taken(answer: Answer)

  const LISTENING_GRACE_MS := 5_000

  const REASON_MAX := 500

  /** `answer` before it finishes anything: what becomes of a form for a question. */
  function Judged(q: Option<Question>, f: Form): Outcome {
    if q.None? || f.action != q.value.action then Gone
    else if f.choice == Some(Quiet) then Taken(KeepBlocked)
    else if f.choice.None? then Invalid
    else if f.choice.value !in q.value.offers then NotOffered
    else if !f.readable || |f.reason| > REASON_MAX then Invalid
    else if |f.reason| < q.value.reasonMin then ReasonShort
    else Taken(if f.choice.value.Ask? then AskAdmin(f.reason) else Allow(f.choice.value, f.reason))
  }

  /** An answer a person may have given to a question in the tray. */
  predicate MayAnswer(q: Question, a: Answer) {
    match a
    case Allow(lasts, reason) => lasts in q.offers && !lasts.Ask? && !lasts.Quiet? && q.reasonMin <= |reason| <= REASON_MAX
    case AskAdmin(reason) => Ask in q.offers && q.reasonMin <= |reason| <= REASON_MAX
    case KeepBlocked => true
    case Deny => true
    case Unavailable(_) => true
  }

  datatype Route = Tray | Window | NoOne

  function RouteFor(listening: bool, windowAllowed: bool): Route {
    if listening then Tray else if windowAllowed then Window else NoOne
  }

  // ── The prompt, with its serializer or without ──

  /** A question as it was asked, and when. */
  datatype Asked = Asked(question: Question, at: Time)

  /** `asked` has every question ever asked; those before `next` have been taken up. `pending` is the one the tray
      shows, `timers` those whose deadline is still set, and `answers` keeps every resolution. */
  datatype World = World(
    serialized: bool, now: Time, asked: seq<Asked>, next: nat, pending: Option<nat>, timers: set<nat>,
    waiting: nat, lastWaitAt: Time, closed: bool, answers: map<nat, seq<Answer>>, routes: map<nat, Route>)

  function Shown(w: World): Option<Question> {
    if w.pending.Some? && w.pending.value < |w.asked| then Some(w.asked[w.pending.value].question) else None
  }

  predicate Listening(w: World) {
    !w.closed && (w.waiting > 0 || w.now - w.lastWaitAt < LISTENING_GRACE_MS)
  }

  function AnswersOf(w: World, i: nat): seq<Answer> {
    if i in w.answers then w.answers[i] else []
  }

  predicate Settled(w: World, i: nat) {
    AnswersOf(w, i) != []
  }

  predicate AskedIn(w: World, i: nat, route: Route) {
    i in w.routes && w.routes[i] == route
  }

  function Resolved(w: World, i: nat, a: Answer): World {
    w.(answers := w.answers[i := AnswersOf(w, i) + [a]])
  }

  datatype Event =
    | Tick(now: Time)
    | Asks(question: Question)
    | Starts(windowAllowed: bool)
    | TimerFires(i: nat)
    | Answers(form: Form)
    | WindowAnswers(i: nat, answer: Answer)
    | WaitBegins | WaitEnds
    | Closes

  /** The serializer starts a question once the one before it is settled. */
  predicate MayStart(w: World) {
    w.next < |w.asked| && (w.serialized && w.next > 0 ==> Settled(w, w.next - 1))
  }

  /** The next question: too long in the serializer's queue, or asked where it may be. In the tray it replaces
      whatever was pending, and gets a timer of its own. */
  function Started(w: World, windowAllowed: bool): World
    requires w.next < |w.asked|
  {
    var i, q := w.next, w.asked[w.next];
    var v := w.(next := i + 1);
    if w.serialized && w.now - q.at > q.question.timeout then Resolved(v, i, Unavailable(false))
    else
      var route := RouteFor(Listening(w), windowAllowed);
      var u := v.(routes := v.routes[i := route]);
      match route
      case Tray => u.(pending := Some(i), timers := u.timers + {i})
      case Window => u
      case NoOne => Resolved(u, i, Unavailable(true))
  }

  /** `finish`. */
  function Finished(w: World, i: nat, a: Answer): World {
    Resolved(w.(timers := w.timers - {i}, pending := if w.pending == Some(i) then None else w.pending), i, a)
  }

  /** A window answers through its own promise, whatever is pending. */
  function Apply(w: World, e: Event): World {
    match e
    case Tick(now) => w.(now := now)
    case Asks(q) => w.(asked := w.asked + [Asked(q, w.now)])
    case Starts(windowAllowed) => if MayStart(w) then Started(w, windowAllowed) else w
    case TimerFires(i) =>
      if i !in w.timers then w
      else if w.pending == Some(i) then Finished(w, i, Deny)
      else w.(timers := w.timers - {i})
    case Answers(f) =>
      var o := Judged(Shown(w), f);
      if o.Taken? && w.pending.Some? then Finished(w, w.pending.value, o.answer) else w
    case WindowAnswers(i, a) => if AskedIn(w, i, Window) && !Settled(w, i) then Resolved(w, i, a) else w
    case WaitBegins => w.(waiting := w.waiting + 1)
    case WaitEnds => if w.waiting > 0 then w.(waiting := w.waiting - 1, lastWaitAt := w.now) else w
    case Closes =>
      var v := w.(closed := true);
      if w.pending.Some? then Finished(v, w.pending.value, Unavailable(false)) else v
  }

  function Run(w: World, events: seq<Event>): World
    decreases events
  {
    if events == [] then w else Run(Apply(w, events[0]), events[1..])
  }

  function Start(serialized: bool): World {
    World(serialized, 0, [], 0, None, {}, 0, 0, false, map[], map[])
  }

  // ── What every run keeps ──

  /** A question taken up is resolved at most once, at once if no one is asked, and in the tray only with what a
      person may answer. What is pending is unresolved, in the tray and has its timer. Behind the serializer only
      the last question can be unresolved, and one in the tray is then the pending one. */
  predicate QuestionOk(w: World, i: nat)
    requires i < |w.asked|
  {
    && |AnswersOf(w, i)| <= 1
    && (i !in w.routes || w.routes[i].NoOne? ==> Settled(w, i))
    && (AskedIn(w, i, Tray) && Settled(w, i) ==> MayAnswer(w.asked[i].question, AnswersOf(w, i)[0]))
    && (w.pending == Some(i) ==> !Settled(w, i) && AskedIn(w, i, Tray) && i in w.timers)
    && (w.serialized && !Settled(w, i) ==> i == w.next - 1 && (AskedIn(w, i, Tray) ==> w.pending == Some(i)))
  }

  ghost predicate Inv(w: World) {
    && w.next <= |w.asked| && (w.pending.Some? ==> w.pending.value < w.next)
    && (forall i :: i in w.answers || i in w.routes || i in w.timers ==> i < w.next)
    && (forall i :: 0 <= i < w.next ==> QuestionOk(w, i))
  }

  lemma EarlierQuestion(w: World, windowAllowed: bool, i: nat)
    requires i < w.next < |w.asked| && QuestionOk(w, i) && (w.serialized ==> Settled(w, i))
    ensures QuestionOk(Started(w, windowAllowed), i)
  {
    hide MayAnswer, Listening;
  }

  lemma NewQuestion(w: World, windowAllowed: bool)
    requires w.next < |w.asked| && AnswersOf(w, w.next) == [] && w.next !in w.routes && w.pending != Some(w.next)
    requires w.serialized ==> w.pending.None?
    ensures QuestionOk(Started(w, windowAllowed), w.next)
  {
    hide MayAnswer, Listening;
  }

  lemma StartKeepsInv(w: World, windowAllowed: bool)
    requires Inv(w) && MayStart(w)
    ensures Inv(Started(w, windowAllowed))
  {
    hide QuestionOk, Listening;
    if w.serialized {
      AllSettled(w);
    }
    NewQuestion(w, windowAllowed);
    forall i | 0 <= i < w.next ensures QuestionOk(Started(w, windowAllowed), i) {
      EarlierQuestion(w, windowAllowed, i);
    }
  }

  /** Behind the serializer a question starts once every earlier one is settled and none is pending. */
  lemma AllSettled(w: World)
    requires Inv(w) && MayStart(w) && w.serialized
    ensures w.pending.None? && forall i :: 0 <= i < w.next ==> Settled(w, i)
  {
    forall i | 0 <= i < w.next ensures Settled(w, i) {
      assert QuestionOk(w, i);
    }
    assert w.pending.Some? ==> QuestionOk(w, w.pending.value);
  }

  lemma FinishKeepsInv(w: World, i: nat, a: Answer)
    requires Inv(w) && w.pending == Some(i) && MayAnswer(w.asked[i].question, a)
    ensures Inv(Finished(w, i, a))
  {
    var w' := Finished(w, i, a);
    forall k | 0 <= k < w'.next ensures QuestionOk(w', k) {
      assert QuestionOk(w, k);
    }
  }

  lemma WindowKeepsInv(w: World, i: nat, a: Answer)
    requires Inv(w) && AskedIn(w, i, Window) && !Settled(w, i)
    ensures Inv(Resolved(w, i, a))
  {
    var w' := Resolved(w, i, a);
    forall k | 0 <= k < w'.next ensures QuestionOk(w', k) {
      assert QuestionOk(w, k);
    }
  }

  /** Time, waits, further questions and the timers of questions that are not pending change nothing for those
      taken up. */
  lemma SameQuestions(w: World, w': World)
    requires Inv(w) && w.asked <= w'.asked && w'.next == w.next && w'.pending == w.pending && w'.serialized == w.serialized
    requires w'.answers == w.answers && w'.routes == w.routes && w'.timers <= w.timers
    requires w.pending.Some? && w.pending.value in w.timers ==> w.pending.value in w'.timers
    ensures Inv(w')
  {
    forall i | 0 <= i < w'.next ensures QuestionOk(w', i) {
      assert QuestionOk(w, i);
    }
  }

  lemma JudgedIsAllowed(q: Question, f: Form)
    ensures Judged(Some(q), f).Taken? ==> MayAnswer(q, Judged(Some(q), f).answer)
  {}

  lemma ApplyKeepsInv(w: World, e: Event)
    requires Inv(w)
    ensures Inv(Apply(w, e))
  {
    hide QuestionOk, Started;
    match e
    case Tick(_) => SameQuestions(w, Apply(w, e));
    case Asks(_) => SameQuestions(w, Apply(w, e));
    case Starts(windowAllowed) => if MayStart(w) { StartKeepsInv(w, windowAllowed); }
    case TimerFires(i) =>
      if w.pending == Some(i) {
        if i in w.timers { FinishKeepsInv(w, i, Deny); }
      } else {
        SameQuestions(w, Apply(w, e));
      }
    case Answers(f) =>
      if w.pending.Some? && Judged(Shown(w), f).Taken? {
        JudgedIsAllowed(Shown(w).value, f);
        FinishKeepsInv(w, w.pending.value, Judged(Shown(w), f).answer);
      }
    case WindowAnswers(i, a) => if AskedIn(w, i, Window) && !Settled(w, i) { WindowKeepsInv(w, i, a); }
    case WaitBegins => SameQuestions(w, Apply(w, e));
    case WaitEnds => SameQuestions(w, Apply(w, e));
    case Closes =>
      SameQuestions(w, w.(closed := true));
      if w.pending.Some? {
        FinishKeepsInv(w.(closed := true), w.pending.value, Unavailable(false));
      }
  }

  lemma {:induction false} RunKeepsInv(w: World, events: seq<Event>)
    requires Inv(w)
    ensures Inv(Run(w, events)) && Run(w, events).serialized == w.serialized
    decreases events
  {
    hide Inv, Apply;
    if events != [] {
      ApplyKeepsInv(w, events[0]);
      ModeStays(w, events[0]);
      RunKeepsInv(Apply(w, events[0]), events[1..]);
    }
  }

  lemma ModeStays(w: World, e: Event)
    ensures Apply(w, e).serialized == w.serialized
  {}

  /** Behind the serializer, in every interleaving: nothing is pending whenever a question starts, each question
      taken up is resolved exactly once, or it is the last and still being asked, in the window or as the pending
      one with its timer set, which would resolve it; and what a question in the tray resolves to is something the
      person was offered, with a long enough reason. */
  lemma {:induction false} EachQuestionIsResolvedOnce(events: seq<Event>, i: nat)
    requires i < Run(Start(true), events).next
    ensures
      var w := Run(Start(true), events);
      && (MayStart(w) ==> w.pending.None?)
      && w.next <= |w.asked| && i < |w.asked|
      && (|AnswersOf(w, i)| == 1
          || (AnswersOf(w, i) == [] && i == w.next - 1
              && (AskedIn(w, i, Window) || (w.pending == Some(i) && i in w.timers && Settled(Apply(w, TimerFires(i)), i)))))
      && (AskedIn(w, i, Tray) && Settled(w, i) ==> MayAnswer(w.asked[i].question, AnswersOf(w, i)[0]))
  {
    RunKeepsInv(Start(true), events);
    var w := Run(Start(true), events);
    assert QuestionOk(w, i);
    assert QuestionOk(w, w.next - 1);
    assert w.pending.Some? ==> QuestionOk(w, w.pending.value);
  }

  // ── Without the serializer ──

  /** The question is in the tray no longer: another one replaced it. */
  predicate Overtaken(w: World, i: nat) {
    i < w.next && !Settled(w, i) && w.pending != Some(i)
  }

  /** Nothing that happens from here on resolves it. */
  ghost predicate Lost(w: World, i: nat) {
    forall more :: !Settled(Run(w, more), i)
  }

  lemma OvertakenStays(w: World, e: Event, i: nat)
    requires Overtaken(w, i) && AskedIn(w, i, Tray)
    ensures Overtaken(Apply(w, e), i) && AskedIn(Apply(w, e), i, Tray)
  {}

  lemma {:induction false} OvertakenIsUnsettled(w: World, events: seq<Event>, i: nat)
    requires Overtaken(w, i) && AskedIn(w, i, Tray)
    ensures !Settled(Run(w, events), i)
    decreases events
  {
    if events != [] {
      OvertakenStays(w, events[0], i);
      OvertakenIsUnsettled(Apply(w, events[0]), events[1..], i);
    }
  }

  /** In every run, with the serializer or without, no question is resolved twice. */
  lemma {:induction false} ResolvedAtMostOnce(serialized: bool, events: seq<Event>, i: nat)
    ensures |AnswersOf(Run(Start(serialized), events), i)| <= 1
  {
    RunKeepsInv(Start(serialized), events);
    var w := Run(Start(serialized), events);
    assert i < w.next ==> QuestionOk(w, i);
  }

  /** In every run, with the serializer or without, a question taken up and overtaken is never resolved exactly
      when it was asked in the tray: the window resolves its own. */
  lemma {:induction false} OvertakenIsLostExactlyInTheTray(serialized: bool, events: seq<Event>, i: nat)
    requires Overtaken(Run(Start(serialized), events), i)
    ensures
      var w := Run(Start(serialized), events);
      Lost(w, i) <==> AskedIn(w, i, Tray)
  {
    var w := Run(Start(serialized), events);
    RunKeepsInv(Start(serialized), events);
    assert QuestionOk(w, i);
    if AskedIn(w, i, Tray) {
      forall more ensures !Settled(Run(w, more), i) {
        OvertakenIsUnsettled(w, more, i);
      }
    } else {
      assert Run(w, [WindowAnswers(i, Deny)]) == Apply(w, WindowAnswers(i, Deny));
      assert Settled(Run(w, [WindowAnswers(i, Deny)]), i);
    }
  }

  /** Behind the serializer no question asked in the tray is ever overtaken. */
  lemma {:induction false} SerializedIsNeverOvertaken(events: seq<Event>, i: nat)
    requires i < Run(Start(true), events).next && AskedIn(Run(Start(true), events), i, Tray)
    ensures !Overtaken(Run(Start(true), events), i)
  {
    RunKeepsInv(Start(true), events);
    assert QuestionOk(Run(Start(true), events), i);
  }

  lemma {:induction false} OneStep(w: World, e: Event, rest: seq<Event>)
    ensures Run(w, [e] + rest) == Run(Apply(w, e), rest)
  {
    assert ([e] + rest)[1..] == rest;
  }

  /** Without it, two questions while a tray listens: the second replaces the first, which is then never
      resolved, whatever is answered and whichever timer fires. */
  lemma {:induction false} AnOvertakenQuestionIsLost(q: Question, r: Question) returns (events: seq<Event>)
    ensures
      var w := Run(Start(false), events);
      && w.next == 2 == |w.asked| && w.asked[0].question == q && AskedIn(w, 0, Tray)
      && w.pending == Some(1) && 0 in w.timers && Lost(w, 0)
  {
    var w0 := Start(false);
    var w1 := Apply(w0, WaitBegins);
    var w2 := Apply(w1, Asks(q));
    var w3 := Apply(w2, Starts(false));
    var w4 := Apply(w3, Asks(r));
    var w5 := Apply(w4, Starts(false));
    OneStep(w4, Starts(false), []);
    OneStep(w3, Asks(r), [Starts(false)] + []);
    OneStep(w2, Starts(false), [Asks(r)] + ([Starts(false)] + []));
    OneStep(w1, Asks(q), [Starts(false)] + ([Asks(r)] + ([Starts(false)] + [])));
    OneStep(w0, WaitBegins, [Asks(q)] + ([Starts(false)] + ([Asks(r)] + ([Starts(false)] + []))));
    events := [WaitBegins] + ([Asks(q)] + ([Starts(false)] + ([Asks(r)] + ([Starts(false)] + []))));
    assert w3.pending == Some(0) && w5.pending == Some(1);
    OvertakenIsLostExactlyInTheTray(false, events, 0);
  }

  // ── What a question is answered with ──

  /** The answer a person's choice stands for, with the reason as it was given. */
  predicate StandsFor(choice: Choice, reason: string, a: Answer) {
    match choice
    case Quiet => a == KeepBlocked
    case Ask => a == AskAdmin(reason)
    case Once => a == Allow(Once, reason)
    case Fifteen => a == Allow(Fifteen, reason)
    case Hour => a == Allow(Hour, reason)
    case Tomorrow => a == Allow(Tomorrow, reason)
    case Always => a == Allow(Always, reason)
  }

  /** A form for this question that says to keep it blocked, or names an offered choice with a readable reason that
      is neither too short nor too long. */
  predicate Accepted(q: Question, f: Form) {
    && f.action == q.action && f.choice.Some?
    && (f.choice == Some(Quiet)
        || (f.choice.value in q.offers && f.readable && q.reasonMin <= |f.reason| && |f.reason| <= 500))
  }

  predicate IsDeadline(e: Event, i: nat) {
    e.TimerFires? && e.i == i
  }

  /** In any run, the question in the tray is resolved by the next event exactly when that is an accepted form, its
      deadline or the close; the form gives the person's own choice and reason, the deadline denies, and the close
      makes it unavailable. Then nothing is pending and its timer is gone. */
  lemma {:induction false} TrayResolvesExactlyWhen(serialized: bool, events: seq<Event>, e: Event, i: nat)
    requires Run(Start(serialized), events).pending == Some(i)
    ensures
      var w := Run(Start(serialized), events);
      && i < |w.asked|
      && (Settled(Apply(w, e), i) <==>
            (e.Answers? && Accepted(w.asked[i].question, e.form)) || IsDeadline(e, i) || e.Closes?)
      && (e.Answers? && Accepted(w.asked[i].question, e.form) ==>
            |AnswersOf(Apply(w, e), i)| == 1 && StandsFor(e.form.choice.value, e.form.reason, AnswersOf(Apply(w, e), i)[0]))
      && (IsDeadline(e, i) ==> AnswersOf(Apply(w, e), i) == [Deny])
      && (e.Closes? ==> AnswersOf(Apply(w, e), i) == [Unavailable(false)])
      && (Settled(Apply(w, e), i) ==> Apply(w, e).pending.None? && i !in Apply(w, e).timers)
  {
    RunKeepsInv(Start(serialized), events);
    assert QuestionOk(Run(Start(serialized), events), i);
  }

  /** What a person is told of a form that is not accepted, which changes nothing: gone when it is for no question
      in the tray; else that the choice was not offered; else that the reason is too short when nothing else is wrong
      with it; else that it could not be read. */
  lemma ToldExactlyWhen(w: World, f: Form)
    requires w.pending.Some? ==> w.pending.value < |w.asked|
    ensures
      var o := Judged(Shown(w), f);
      var here := w.pending.Some? && w.asked[w.pending.value].question.action == f.action;
      && (o.Taken? <==> here && Accepted(w.asked[w.pending.value].question, f)) && (!o.Taken? ==> Apply(w, Answers(f)) == w)
      && (o.Gone? <==> !here)
      && (o.NotOffered? <==>
            here && f.choice.Some? && !f.choice.value.Quiet? && f.choice.value !in w.asked[w.pending.value].question.offers)
      && (o.ReasonShort? <==>
            && here && f.choice.Some? && !f.choice.value.Quiet? && f.choice.value in w.asked[w.pending.value].question.offers
            && f.readable && |f.reason| <= 500 && |f.reason| < w.asked[w.pending.value].question.reasonMin)
  {}

  /** A tray that stopped waiting some time ago is asked exactly when that is less than five seconds, or another
      waits, and the prompt is not closed; else the window is, where it may open, else no one. A question behind
      the serializer first waits for the one before it, and is not asked at all once that took longer than its own
      deadline. */
  lemma {:induction false} AskedWhereExactlyWhen(w: World, q: Question, later: Time, start: Time, windowAllowed: bool)
    requires w.next == |w.asked| && (w.serialized && w.next > 0 ==> Settled(w, w.next - 1))
    requires w.next !in w.answers && w.next !in w.routes
    ensures
      var asked := Run(w, [WaitBegins, WaitEnds, Tick(later), Asks(q), Tick(start), Starts(windowAllowed)]);
      var late := w.serialized && start - later > q.timeout;
      var heard := !w.closed && (w.waiting > 0 || start - w.now < 5000);
      && asked.next == w.next + 1
      && (AskedIn(asked, w.next, Tray) <==> !late && heard)
      && (AskedIn(asked, w.next, Tray) ==> asked.pending == Some(w.next) && w.next in asked.timers)
      && (AskedIn(asked, w.next, Window) <==> !late && !heard && windowAllowed)
      && (late ==> AnswersOf(asked, w.next) == [Unavailable(false)])
      && (!late && !heard && !windowAllowed ==> AnswersOf(asked, w.next) == [Unavailable(true)])
  {
    hide Started, MayStart;
    var w1 := Apply(w, WaitBegins);
    var w2 := Apply(w1, WaitEnds);
    var w3 := Apply(w2, Tick(later));
    var w4 := Apply(w3, Asks(q));
    var w5 := Apply(w4, Tick(start));
    assert w5 == w.(now := start, asked := w.asked + [Asked(q, later)], lastWaitAt := w.now);
    StartsWhere(w5, windowAllowed);
    OneStep(w5, Starts(windowAllowed), []);
    OneStep(w4, Tick(start), [Starts(windowAllowed)]);
    OneStep(w3, Asks(q), [Tick(start), Starts(windowAllowed)]);
    OneStep(w2, Tick(later), [Asks(q), Tick(start), Starts(windowAllowed)]);
    OneStep(w1, WaitEnds, [Tick(later), Asks(q), Tick(start), Starts(windowAllowed)]);
    OneStep(w, WaitBegins, [WaitEnds, Tick(later), Asks(q), Tick(start), Starts(windowAllowed)]);
    Listed(w, q, later, start, windowAllowed);
  }

  lemma StartsWhere(w: World, windowAllowed: bool)
    requires w.next < |w.asked| && (w.serialized && w.next > 0 ==> Settled(w, w.next - 1))
    requires w.next !in w.answers && w.next !in w.routes
    ensures
      var asked, q := Apply(w, Starts(windowAllowed)), w.asked[w.next];
      var late := w.serialized && w.now - q.at > q.question.timeout;
      var heard := !w.closed && (w.waiting > 0 || w.now - w.lastWaitAt < 5000);
      && asked.next == w.next + 1
      && (AskedIn(asked, w.next, Tray) <==> !late && heard)
      && (AskedIn(asked, w.next, Tray) ==> asked.pending == Some(w.next) && w.next in asked.timers)
      && (AskedIn(asked, w.next, Window) <==> !late && !heard && windowAllowed)
      && (late ==> AnswersOf(asked, w.next) == [Unavailable(false)])
      && (!late && !heard && !windowAllowed ==> AnswersOf(asked, w.next) == [Unavailable(true)])
  {}

  lemma Listed(w: World, q: Question, later: Time, start: Time, windowAllowed: bool)
    ensures [Starts(windowAllowed)] + [] == [Starts(windowAllowed)]
    ensures [Tick(start)] + [Starts(windowAllowed)] == [Tick(start), Starts(windowAllowed)]
    ensures [Asks(q)] + [Tick(start), Starts(windowAllowed)] == [Asks(q), Tick(start), Starts(windowAllowed)]
    ensures [Tick(later)] + [Asks(q), Tick(start), Starts(windowAllowed)] == [Tick(later), Asks(q), Tick(start), Starts(windowAllowed)]
    ensures [WaitEnds] + [Tick(later), Asks(q), Tick(start), Starts(windowAllowed)]
         == [WaitEnds, Tick(later), Asks(q), Tick(start), Starts(windowAllowed)]
    ensures [WaitBegins] + [WaitEnds, Tick(later), Asks(q), Tick(start), Starts(windowAllowed)]
         == [WaitBegins, WaitEnds, Tick(later), Asks(q), Tick(start), Starts(windowAllowed)]
  {}

  // ── The prompt's own variables ──

  /** `livePrompt`, with the serializer before it or not, its variables changed in place. */
  class Prompt {
    const serialized: bool
    var now: Time
    var asked: seq<Asked>
    var next: nat
    var pending: Option<nat>
    var timers: set<nat>
    var waiting: nat
    var lastWaitAt: Time
    var closed: bool
    var answers: map<nat, seq<Answer>>
    var routes: map<nat, Route>

    function Value(): World
      reads this
    {
      World(serialized, now, asked, next, pending, timers, waiting, lastWaitAt, closed, answers, routes)
    }

    constructor (serialized: bool)
      ensures Value() == Start(serialized)
    {
      this.serialized := serialized;
      now, asked, next, pending, timers, waiting, lastWaitAt := 0, [], 0, None, {}, 0, 0;
      closed, answers, routes := false, map[], map[];
    }

    /** `finish`: clears the question's timer, and what is pending if that is the question. */
    method Finish(i: nat, a: Answer)
      modifies this
      ensures Value() == Finished(old(Value()), i, a)
    {
      timers := timers - {i};
      if pending == Some(i) {
        pending := None;
      }
      answers := answers[i := (if i in answers then answers[i] else []) + [a]];
    }

    /** The next question, once the serializer lets it through. */
    method StartNext(windowAllowed: bool)
      requires MayStart(Value())
      modifies this
      ensures Value() == Started(old(Value()), windowAllowed)
    {
      var i, q := next, asked[next];
      next := next + 1;
      var had := if i in answers then answers[i] else [];
      if serialized && now - q.at > q.question.timeout {
        answers := answers[i := had + [Unavailable(false)]];
        return;
      }
      var listening := !closed && (waiting > 0 || now - lastWaitAt < LISTENING_GRACE_MS);
      var route := RouteFor(listening, windowAllowed);
      routes := routes[i := route];
      match route
      case Tray =>
        pending := Some(i);
        timers := timers + {i};
      case Window =>
      case NoOne => answers := answers[i := had + [Unavailable(true)]];
    }

    /** A question's deadline passes. */
    method FireTimer(i: nat)
      requires i in timers
      modifies this
      ensures Value() == Apply(old(Value()), TimerFires(i))
    {
      if pending == Some(i) {
        Finish(i, Deny);
      } else {
        timers := timers - {i};
      }
    }

    /** The person's form: refused, or the pending question's answer. */
    method AnswerForm(f: Form) returns (o: Outcome)
      requires pending.Some? ==> pending.value < |asked|
      modifies this
      ensures o == Judged(Shown(old(Value())), f) && Value() == Apply(old(Value()), Answers(f))
    {
      if pending.None? || f.action != asked[pending.value].question.action {
        return Gone;
      }
      var q := asked[pending.value].question;
      if f.choice == Some(Quiet) {
        Finish(pending.value, KeepBlocked);
        return Taken(KeepBlocked);
      }
      if f.choice.None? {
        return Invalid;
      }
      if f.choice.value !in q.offers {
        return NotOffered;
      }
      if !f.readable || |f.reason| > REASON_MAX {
        return Invalid;
      }
      if |f.reason| < q.reasonMin {
        return ReasonShort;
      }
      var answer := if f.choice.value == Ask then AskAdmin(f.reason) else Allow(f.choice.value, f.reason);
      Finish(pending.value, answer);
      return Taken(answer);
    }

    method Close()
      modifies this
      ensures Value() == Apply(old(Value()), Closes)
    {
      closed := true;
      if pending.Some? {
        Finish(pending.value, Unavailable(false));
      }
    }
  }
}
