/** What the clients of the multi-turn load generator actually say: in every run, whatever the threads
    do, the prompts a client sends are its first prompt with the answers it got and the sub-questions
    it drew woven in, in order. */
module MultiturnTranscript {
  import opened Collections
  import opened Multiturn

  /** The answer a step brings for client `c`, if any. */
  function NewAnswer(s: State, a: Action, c: nat): seq<Response> {
    match a
    case Finish(k, r) => if k < |s.tasks| && s.tasks[k].0 == c then [r] else []
    case _ => []
  }

  /** The sub-question a step draws for client `c`, if any. */
  function NewQuestion(s: State, a: Action, c: nat): seq<string> {
    if a == Requeue && s.handler == Resuming(c) && s.pool != [] then [Last(s.pool)] else []
  }

  /** The answers the server has given to client `c` during the first `i` steps, good and bad. */
  ghost function AnswersTo(tr: seq<State>, acts: seq<Action>, i: nat, c: nat): seq<Response>
    requires i <= |acts| && |tr| == |acts| + 1
  {
    if i == 0 then [] else AnswersTo(tr, acts, i - 1, c) + NewAnswer(tr[i - 1], acts[i - 1], c)
  }

  /** The sub-questions drawn for client `c` during the first `i` steps. */
  ghost function QuestionsFor(tr: seq<State>, acts: seq<Action>, i: nat, c: nat): seq<string>
    requires i <= |acts| && |tr| == |acts| + 1
  {
    if i == 0 then [] else QuestionsFor(tr, acts, i - 1, c) + NewQuestion(tr[i - 1], acts[i - 1], c)
  }

  /** The first prompt, then answer and question in turn; the last question may be missing. */
  function Weave(first: string, answers: seq<Response>, questions: seq<string>): string
    requires |questions| <= |answers| <= |questions| + 1
    decreases |answers| + |questions|
  {
    if |questions| == |answers| then
      if questions == [] then first
      else Weave(first, answers, questions[..|questions| - 1]) + questions[|questions| - 1]
    else Weave(first, answers[..|answers| - 1], questions) + answers[|answers| - 1].text
  }

  lemma WeaveAnswer(first: string, answers: seq<Response>, questions: seq<string>, r: Response)
    requires |questions| == |answers|
    ensures Weave(first, answers + [r], questions) == Weave(first, answers, questions) + r.text
  {
    assert (answers + [r])[..|answers|] == answers;
  }

  lemma WeaveQuestion(first: string, answers: seq<Response>, questions: seq<string>, q: string)
    requires |answers| == |questions| + 1
    ensures Weave(first, answers, questions + [q]) == Weave(first, answers, questions) + q
  {
    assert (questions + [q])[..|questions|] == questions;
  }

  // ---------------------------------------------------------------- one client

  /** Answers of client `c` that are not in its record: on their way, or failed. */
  function OnTheWay(s: State, c: nat): nat {
    One(InLoop(s, c)) + Count(s.responses, c) + One(c in s.lost)
  }

  /** A client with all its answers recorded and nothing of its own to say is finished, stuck or being
      resumed. */
  function SilentNow(s: State, c: nat): nat {
    One(InHandler(s, c)) + One(c in s.finished)
  }

  /** The prompts sent are the transcripts up to their round. */
  ghost predicate Logged(first: string, log: seq<string>, answers: seq<Response>, questions: seq<string>)
    requires |questions| <= |answers|
  {
    forall j :: 0 <= j < |log| ==> Said(first, log[j], answers, questions, j)
  }

  ghost predicate Said(first: string, prompt: string, answers: seq<Response>, questions: seq<string>, j: nat)
    requires |questions| <= |answers|
  {
    j <= |questions| && prompt == Weave(first, answers[..j], questions[..j])
  }

  lemma PrefixOfConcat<T>(a: seq<T>, b: seq<T>, j: nat)
    requires j <= |a|
    ensures (a + b)[..j] == a[..j]
  {
  }

  lemma LoggedMore(first: string, log: seq<string>, answers: seq<Response>, questions: seq<string>,
                   more: seq<Response>, asked: seq<string>)
    requires |questions| <= |answers| && |questions + asked| <= |answers + more|
    requires Logged(first, log, answers, questions)
    ensures Logged(first, log, answers + more, questions + asked)
  {
    forall j | 0 <= j < |log| ensures Said(first, log[j], answers + more, questions + asked, j) {
      assert Said(first, log[j], answers, questions, j);
      PrefixOfConcat(answers, more, j);
      PrefixOfConcat(questions, asked, j);
    }
  }

  /** The record, the log and the answers on their way, against what was answered and asked. */
  ghost predicate Told(cfg: Config, s: State, c: nat, answers: seq<Response>, questions: seq<string>)
    requires c < cfg.clients <= |cfg.prompts| && |s.records| == |s.log| == cfg.clients
  {
    var r := s.records[c].round;
    && |answers| == r + OnTheWay(s, c) && |questions| + SilentNow(s, c) == r
    && SilentNow(s, c) <= 1 && OnTheWay(s, c) <= 1
    && s.records[c].history == Weave(cfg.prompts[c], answers[..r], questions)
    && (forall j :: 0 <= j < r ==> answers[j].success)
    && Logged(cfg.prompts[c], s.log[c], answers, questions)
    && (InLoop(s, c) ==> s.loop.response == answers[r])
    && (c in s.lost ==> !answers[r].success)
  }

  /** Queue entries of client `c` carry its latest answer. */
  ghost predicate Delivered(s: State, c: nat, answers: seq<Response>) {
    forall k :: 0 <= k < |s.responses| && s.responses[k].0 == c ==> answers != [] && s.responses[k].1 == Last(answers)
  }

  ghost predicate Ok(cfg: Config, s: State, c: nat, answers: seq<Response>, questions: seq<string>) {
    && c < cfg.clients <= |cfg.prompts| && |s.records| == |s.log| == cfg.clients
    && Told(cfg, s, c, answers, questions) && Delivered(s, c, answers)
  }

  lemma NoTail<T>(a: seq<T>)
    ensures a + [] == a && a[..|a|] == a
  {
  }

  /** A step that does not concern client `c` at all. */
  lemma Unconcerned(cfg: Config, s: State, s': State, c: nat, answers: seq<Response>, questions: seq<string>)
    requires Ok(cfg, s, c, answers, questions) && |s'.records| == |s'.log| == cfg.clients
    requires s'.records[c] == s.records[c] && s'.log[c] == s.log[c]
    requires OnTheWay(s', c) == OnTheWay(s, c) && SilentNow(s', c) == SilentNow(s, c)
    requires InLoop(s', c) <==> InLoop(s, c)
    requires InLoop(s, c) ==> s'.loop == s.loop
    requires c in s'.lost <==> c in s.lost
    requires Delivered(s', c, answers)
    ensures Ok(cfg, s', c, answers, questions)
  {
  }

  // ---------------------------------------------------------------- the steps

  lemma PopTold(cfg: Config, s: State, i: nat, c: nat, answers: seq<Response>, questions: seq<string>)
    requires Inv(cfg, s) && Ok(cfg, s, c, answers, questions) && Enabled(cfg, s, Pop(i))
    ensures Ok(cfg, Apply(cfg, s, Pop(i)), c, answers, questions)
  {
    var s' := Apply(cfg, s, Pop(i));
    if s.ready == [] || cfg.policy == Unsupported || s.ready[i].0 != c {
      Unconcerned(cfg, s, s', c, answers, questions);
    } else {
      CountMember(s.ready, i);
      assert Places(s, c) == 1;
      assert Current(s, s.ready[i]);
      SaysHistory(cfg, s, s', c, answers, questions);
    }
  }

  /** A client with nothing on the way sends its history. */
  lemma SaysHistory(cfg: Config, s: State, s': State, c: nat, answers: seq<Response>, questions: seq<string>)
    requires Ok(cfg, s, c, answers, questions) && |s'.records| == |s'.log| == cfg.clients
    requires OnTheWay(s, c) == 0 && SilentNow(s, c) == 0 && |s.log[c]| == s.records[c].round
    requires s'.records == s.records && s'.responses == s.responses && s'.lost == s.lost
    requires !InLoop(s', c) && SilentNow(s', c) == 0
    requires s'.log[c] == s.log[c] + [s.records[c].history]
    ensures Ok(cfg, s', c, answers, questions)
  {
    NoTail(answers);
    NoTail(questions);
    assert |s.log[c]| == s.records[c].round == |answers| == |questions|;
  }

  lemma FinishTold(cfg: Config, s: State, k: nat, x: Response, c: nat, answers: seq<Response>, questions: seq<string>)
    requires Inv(cfg, s) && Ok(cfg, s, c, answers, questions) && Enabled(cfg, s, Finish(k, x))
    ensures Ok(cfg, Apply(cfg, s, Finish(k, x)), c, answers + NewAnswer(s, Finish(k, x), c), questions)
  {
    var s' := Apply(cfg, s, Finish(k, x));
    if s.tasks[k].0 != c {
      NoTail(answers);
      Unconcerned(cfg, s, s', c, answers, questions);
    } else {
      CountMember(s.tasks, k);
      assert Places(s, c) == 1;
      OneMore(cfg, s, s', c, answers, questions, x);
    }
  }

  /** A further answer does not change what has been said. */
  lemma OneMore(cfg: Config, s: State, s': State, c: nat, answers: seq<Response>, questions: seq<string>, x: Response)
    requires Ok(cfg, s, c, answers, questions) && OnTheWay(s, c) == 0
    requires s'.records == s.records && s'.log == s.log && s'.responses == s.responses && s'.lost == s.lost
    requires s'.loop == Reporting(c, x) && SilentNow(s', c) == SilentNow(s, c)
    ensures Ok(cfg, s', c, answers + [x], questions)
  {
    var r, more := s.records[c].round, answers + [x];
    assert more[..r] == answers[..r];
    NoTail(questions);
    LoggedMore(cfg.prompts[c], s.log[c], answers, questions, [x], []);
    forall k | 0 <= k < |s.responses| ensures s.responses[k].0 != c {
      if s.responses[k].0 == c { CountMember(s.responses, k); }
    }
  }

  lemma PutTold(cfg: Config, s: State, c: nat, answers: seq<Response>, questions: seq<string>)
    requires Inv(cfg, s) && Ok(cfg, s, c, answers, questions) && Enabled(cfg, s, Put)
    ensures Ok(cfg, Apply(cfg, s, Put), c, answers, questions)
  {
    var s' := Apply(cfg, s, Put);
    CountSnoc(s.responses, (s.loop.client, s.loop.response), c);
    if s.loop.client != c {
      Unconcerned(cfg, s, s', c, answers, questions);
    } else {
      assert Places(s, c) == 1;
      Arrives(cfg, s, s', c, answers, questions);
    }
  }

  /** The answer being reported is the last one, so it is what enters the queue. */
  lemma Arrives(cfg: Config, s: State, s': State, c: nat, answers: seq<Response>, questions: seq<string>)
    requires Ok(cfg, s, c, answers, questions) && InLoop(s, c)
    requires s'.records == s.records && s'.log == s.log && s'.lost == s.lost && !InLoop(s', c)
    requires s'.responses == s.responses + [(c, s.loop.response)]
    requires OnTheWay(s', c) == 1 && SilentNow(s', c) == SilentNow(s, c)
    ensures Ok(cfg, s', c, answers, questions)
  {
    assert Last(answers) == answers[s.records[c].round];
  }

  /** The answer at the head of the queue is the client's latest. */
  lemma HeadIsLatest(cfg: Config, s: State, answers: seq<Response>, questions: seq<string>)
    requires Inv(cfg, s) && s.responses != [] && Ok(cfg, s, s.responses[0].0, answers, questions)
    ensures var c := s.responses[0].0;
      && |answers| == s.records[c].round + 1 && SilentNow(s, c) == 0 && s.responses[0].1 == Last(answers)
      && Count(s.responses, c) == 1 && !InLoop(s, c) && c !in s.lost
  {
    HeadOfQueue(cfg, s);
  }

  lemma TailDelivered(s: State, c: nat, answers: seq<Response>)
    requires Delivered(s, c, answers) && s.responses != []
    ensures forall k :: 0 <= k < |s.responses[1..]| && s.responses[1..][k].0 == c ==>
      answers != [] && s.responses[1..][k].1 == Last(answers)
  {
    assert forall k :: 0 <= k < |s.responses[1..]| ==> s.responses[1..][k] == s.responses[k + 1];
  }

  lemma HandleTold(cfg: Config, s: State, c: nat, answers: seq<Response>, questions: seq<string>)
    requires Inv(cfg, s) && Ok(cfg, s, c, answers, questions) && Enabled(cfg, s, Handle)
    ensures Ok(cfg, Apply(cfg, s, Handle), c, answers, questions)
  {
    TailDelivered(s, c, answers);
    if s.responses[0].0 != c {
      HandleOther(cfg, s, c, answers, questions);
    } else {
      HandleOwn(cfg, s, answers, questions);
    }
  }

  lemma HandleOther(cfg: Config, s: State, c: nat, answers: seq<Response>, questions: seq<string>)
    requires Ok(cfg, s, c, answers, questions) && Enabled(cfg, s, Handle) && s.responses[0].0 != c
    requires Delivered(ApplyHandle(cfg, s), c, answers)
    ensures Ok(cfg, ApplyHandle(cfg, s), c, answers, questions)
  {
    CountTail(s.responses, c);
    Unconcerned(cfg, s, ApplyHandle(cfg, s), c, answers, questions);
  }

  lemma HandleOwn(cfg: Config, s: State, answers: seq<Response>, questions: seq<string>)
    requires Inv(cfg, s) && Enabled(cfg, s, Handle) && Ok(cfg, s, s.responses[0].0, answers, questions)
    requires Delivered(ApplyHandle(cfg, s), s.responses[0].0, answers)
    ensures Ok(cfg, ApplyHandle(cfg, s), s.responses[0].0, answers, questions)
  {
    HeadIsLatest(cfg, s, answers, questions);
    CountTail(s.responses, s.responses[0].0);
    if s.responses[0].1.success {
      HandleGood(cfg, s, answers, questions);
    } else {
      HandleBad(cfg, s, answers, questions);
    }
  }

  /** The facts `HeadIsLatest` gives about the client whose answer is taken. */
  ghost predicate TakesLatest(cfg: Config, s: State, answers: seq<Response>, questions: seq<string>) {
    && Enabled(cfg, s, Handle) && Ok(cfg, s, s.responses[0].0, answers, questions)
    && var c := s.responses[0].0;
      && |answers| == s.records[c].round + 1 && SilentNow(s, c) == 0 && s.responses[0].1 == Last(answers)
      && Count(s.responses[1..], c) == 0 && !InLoop(s, c) && c !in s.lost
      && Delivered(ApplyHandle(cfg, s), c, answers)
  }

  lemma HandleGood(cfg: Config, s: State, answers: seq<Response>, questions: seq<string>)
    requires TakesLatest(cfg, s, answers, questions) && s.responses[0].1.success
    ensures Ok(cfg, ApplyHandle(cfg, s), s.responses[0].0, answers, questions)
  {
    Credits(cfg, s, ApplyHandle(cfg, s), s.responses[0].0, answers, questions, s.responses[0].1);
  }

  lemma HandleBad(cfg: Config, s: State, answers: seq<Response>, questions: seq<string>)
    requires TakesLatest(cfg, s, answers, questions) && !s.responses[0].1.success
    ensures Ok(cfg, ApplyHandle(cfg, s), s.responses[0].0, answers, questions)
  {
    Loses(cfg, s, ApplyHandle(cfg, s), s.responses[0].0, answers, questions);
  }

  /** A good answer is added to the record. */
  lemma Credits(cfg: Config, s: State, s': State, c: nat, answers: seq<Response>, questions: seq<string>, x: Response)
    requires Ok(cfg, s, c, answers, questions) && |s'.records| == |s'.log| == cfg.clients
    requires |answers| == s.records[c].round + 1 && SilentNow(s, c) == 0 && x == Last(answers) && x.success
    requires OnTheWay(s', c) == 0 && SilentNow(s', c) == 1
    requires s'.records[c] == Record(s.records[c].round + 1, s.records[c].history + x.text) && s'.log == s.log
    requires Delivered(s', c, answers)
    ensures Ok(cfg, s', c, answers, questions)
  {
    var r := s.records[c].round;
    assert answers[..r + 1] == answers[..r] + [x];
    WeaveAnswer(cfg.prompts[c], answers[..r], questions, x);
  }

  /** A failed answer stays out of the record. */
  lemma Loses(cfg: Config, s: State, s': State, c: nat, answers: seq<Response>, questions: seq<string>)
    requires Ok(cfg, s, c, answers, questions)
    requires |answers| == s.records[c].round + 1 && !Last(answers).success
    requires s'.records == s.records && s'.log == s.log && OnTheWay(s', c) == 1 && !InLoop(s', c)
    requires SilentNow(s', c) == SilentNow(s, c) && Delivered(s', c, answers)
    ensures Ok(cfg, s', c, answers, questions)
  {
  }

  lemma RequeueTold(cfg: Config, s: State, c: nat, answers: seq<Response>, questions: seq<string>)
    requires Inv(cfg, s) && Ok(cfg, s, c, answers, questions) && Enabled(cfg, s, Requeue)
    ensures Ok(cfg, Apply(cfg, s, Requeue), c, answers, questions + NewQuestion(s, Requeue, c))
  {
    if s.handler.next != c || s.pool == [] {
      NoTail(questions);
      Unconcerned(cfg, s, Apply(cfg, s, Requeue), c, answers, questions);
    } else {
      assert Places(s, c) == 1;
      RequeueOwn(cfg, s, c, answers, questions);
    }
  }

  lemma RequeueOwn(cfg: Config, s: State, c: nat, answers: seq<Response>, questions: seq<string>)
    requires Ok(cfg, s, c, answers, questions) && Enabled(cfg, s, Requeue) && s.handler.next == c && s.pool != []
    requires OnTheWay(s, c) == 0 && c !in s.finished
    ensures Ok(cfg, Apply(cfg, s, Requeue), c, answers, questions + NewQuestion(s, Requeue, c))
  {
    Asks(cfg, s, Apply(cfg, s, Requeue), c, answers, questions, Last(s.pool));
  }

  /** A client with all its answers recorded is asked a further question. */
  lemma Asks(cfg: Config, s: State, s': State, c: nat, answers: seq<Response>, questions: seq<string>, q: string)
    requires Ok(cfg, s, c, answers, questions) && |s'.records| == |s'.log| == cfg.clients
    requires OnTheWay(s, c) == OnTheWay(s', c) == 0 && SilentNow(s, c) == 1 && SilentNow(s', c) == 0
    requires s'.records[c] == Record(s.records[c].round, s.records[c].history + q)
    requires s'.log == s.log && s'.responses == s.responses && s'.lost == s.lost && !InLoop(s', c)
    ensures Ok(cfg, s', c, answers, questions + [q])
  {
    NoTail(answers);
    WeaveQuestion(cfg.prompts[c], answers[..s.records[c].round], questions, q);
    LoggedMore(cfg.prompts[c], s.log[c], answers, questions, [], [q]);
  }

  lemma RaiseTold(cfg: Config, s: State, k: nat, c: nat, answers: seq<Response>, questions: seq<string>)
    requires Ok(cfg, s, c, answers, questions) && Enabled(cfg, s, Raise(k))
    ensures Ok(cfg, Apply(cfg, s, Raise(k)), c, answers, questions)
  {
    Unconcerned(cfg, s, Apply(cfg, s, Raise(k)), c, answers, questions);
  }

  /** Steps that move neither requests nor answers. */
  lemma PollTold(cfg: Config, s: State, a: Action, c: nat, answers: seq<Response>, questions: seq<string>)
    requires Ok(cfg, s, c, answers, questions) && Enabled(cfg, s, a)
    requires a.Admit? || a.Test? || a.Expire? || a.Decide?
    ensures Ok(cfg, Apply(cfg, s, a), c, answers, questions)
  {
    Unconcerned(cfg, s, Apply(cfg, s, a), c, answers, questions);
  }

  lemma StepTold(cfg: Config, s: State, a: Action, c: nat, answers: seq<Response>, questions: seq<string>)
    requires Inv(cfg, s) && Ok(cfg, s, c, answers, questions) && Enabled(cfg, s, a)
    ensures Ok(cfg, Apply(cfg, s, a), c, answers + NewAnswer(s, a, c), questions + NewQuestion(s, a, c))
  {
    if a.Finish? {
      NoTail(questions);
      FinishTold(cfg, s, a.task, a.response, c, answers, questions);
    } else if a.Requeue? {
      NoTail(answers);
      RequeueTold(cfg, s, c, answers, questions);
    } else {
      NoTail(answers);
      NoTail(questions);
      StepToldSame(cfg, s, a, c, answers, questions);
    }
  }

  lemma StepToldSame(cfg: Config, s: State, a: Action, c: nat, answers: seq<Response>, questions: seq<string>)
    requires Inv(cfg, s) && Ok(cfg, s, c, answers, questions) && Enabled(cfg, s, a) && !a.Finish? && !a.Requeue?
    ensures Ok(cfg, Apply(cfg, s, a), c, answers, questions)
  {
    match a
    case Pop(i) => PopTold(cfg, s, i, c, answers, questions);
    case Raise(k) => RaiseTold(cfg, s, k, c, answers, questions);
    case Put => PutTold(cfg, s, c, answers, questions);
    case Handle => HandleTold(cfg, s, c, answers, questions);
    case _ => PollTold(cfg, s, a, c, answers, questions);
  }

  lemma InitTold(cfg: Config, c: nat)
    requires c < cfg.clients <= |cfg.prompts|
    ensures Ok(cfg, Init(cfg), c, [], [])
  {
  }

  /** In every run the prompt a client sends in round `j` is its first prompt, followed by the first
      `j` answers the server gave it and the sub-questions drawn for it, in turn; and its record ends
      with the answers it has been given credit for, none of which failed. */
  lemma {:induction false} PromptsAreTranscripts(cfg: Config, tr: seq<State>, acts: seq<Action>, i: nat, c: nat)
    requires IsRun(cfg, tr, acts) && i < |tr| && c < cfg.clients
    ensures Ok(cfg, tr[i], c, AnswersTo(tr, acts, i, c), QuestionsFor(tr, acts, i, c))
  {
    if i == 0 {
      InitTold(cfg, c);
    } else {
      var s, a := tr[i - 1], acts[i - 1];
      var answers, questions := AnswersTo(tr, acts, i - 1, c), QuestionsFor(tr, acts, i - 1, c);
      PromptsAreTranscripts(cfg, tr, acts, i - 1, c);
      assert tr[i] == Apply(cfg, s, a);
      RunInv(cfg, tr, acts, i - 1);
      StepTold(cfg, s, a, c, answers, questions);
    }
  }
}
