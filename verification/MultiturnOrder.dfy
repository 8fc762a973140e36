/** In which order the multi-turn load generator does things: requests are sent in the order they became
    ready, answers are handled in the order they arrived, and sub-questions are drawn from the end of the
    pool. */
module MultiturnOrder {
  import opened Collections
  import opened Multiturn

  // ---------------------------------------------------------------- requests

  /** The request a step sends, if any: the task it adds. */
  function NewSent(s: State, s': State, a: Action): seq<(nat, string)> {
    if a.Pop? && |s'.tasks| == |s.tasks| + 1 then [Last(s'.tasks)] else []
  }

  /** The request a step makes ready, if any: the client the handler resumes, with its new history. */
  function NewReady(s: State, s': State, a: Action): seq<(nat, string)> {
    if a == Requeue && s.handler.Resuming? && s'.handler.Waiting? && s.handler.next < |s'.records|
    then [(s.handler.next, s'.records[s.handler.next].history)] else []
  }

  /** The requests sent during the first `i` steps. */
  ghost function Sent(tr: seq<State>, acts: seq<Action>, i: nat): seq<(nat, string)>
    requires i <= |acts| && |tr| == |acts| + 1
  {
    if i == 0 then [] else Sent(tr, acts, i - 1) + NewSent(tr[i - 1], tr[i], acts[i - 1])
  }

  /** The further rounds queued during the first `i` steps. */
  ghost function Requeued(tr: seq<State>, acts: seq<Action>, i: nat): seq<(nat, string)>
    requires i <= |acts| && |tr| == |acts| + 1
  {
    if i == 0 then [] else Requeued(tr, acts, i - 1) + NewReady(tr[i - 1], tr[i], acts[i - 1])
  }

  /** Every client's first prompt, from client 0 on. */
  ghost predicate Openers(cfg: Config, q: seq<(nat, string)>)
    requires cfg.clients <= |cfg.prompts|
  {
    |q| == cfg.clients && forall c :: 0 <= c < cfg.clients ==> q[c] == (c, cfg.prompts[c])
  }

  /** The ready queue gives up at the front what is sent, and takes at the end what becomes ready. */
  lemma ReadyStep(cfg: Config, s: State, a: Action, s': State)
    requires Enabled(cfg, s, a) && s' == Apply(cfg, s, a) && cfg.policy == Fifo
    ensures NewSent(s, s', a) + s'.ready == s.ready + NewReady(s, s', a)
  {
    if a.Pop? && s.ready != [] {
      assert [s.ready[0]] + Remove(s.ready, 0) == s.ready + [];
    } else {
      Unchanged(s.ready);
      Unchanged(s'.ready);
    }
  }

  lemma {:induction false} SentQueue(cfg: Config, tr: seq<State>, acts: seq<Action>, i: nat)
    requires IsRun(cfg, tr, acts) && i < |tr| && cfg.policy == Fifo
    ensures Sent(tr, acts, i) + tr[i].ready == tr[0].ready + Requeued(tr, acts, i)
  {
    if i == 0 {
      Unchanged(tr[0].ready);
    } else {
      SentQueue(cfg, tr, acts, i - 1);
      ReadyStep(cfg, tr[i - 1], acts[i - 1], tr[i]);
      QueueMoves(Sent(tr, acts, i - 1), NewSent(tr[i - 1], tr[i], acts[i - 1]), tr[i].ready, tr[i - 1].ready,
                 NewReady(tr[i - 1], tr[i], acts[i - 1]), tr[0].ready, Requeued(tr, acts, i - 1));
    }
  }

  /** In every run under the first-in-first-out policy the requests sent so far, followed by those still ready,
      are every client's first prompt, from client 0 on, and then the rounds queued since, in the order in
      which they were queued. */
  lemma SentInOrder(cfg: Config, tr: seq<State>, acts: seq<Action>, i: nat) returns (first: seq<(nat, string)>)
    requires IsRun(cfg, tr, acts) && i < |tr| && cfg.policy == Fifo
    ensures Openers(cfg, first)
    ensures Sent(tr, acts, i) + tr[i].ready == first + Requeued(tr, acts, i)
  {
    first := tr[0].ready;
    SentQueue(cfg, tr, acts, i);
  }

  // ---------------------------------------------------------------- answers

  /** The answer a step brings, if any, with its client. */
  function NewAnswer(s: State, a: Action): seq<(nat, Response)> {
    match a
    case Finish(k, r) => if k < |s.tasks| then [(s.tasks[k].0, r)] else []
    case _ => []
  }

  /** The answer a step takes from the queue, if any: the one by which the queue gets shorter. */
  function NewTaken(s: State, s': State, a: Action): seq<(nat, Response)> {
    if a == Handle && |s'.responses| < |s.responses| then [s.responses[0]] else []
  }

  ghost function Answers(tr: seq<State>, acts: seq<Action>, i: nat): seq<(nat, Response)>
    requires i <= |acts| && |tr| == |acts| + 1
  {
    if i == 0 then [] else Answers(tr, acts, i - 1) + NewAnswer(tr[i - 1], acts[i - 1])
  }

  ghost function Taken(tr: seq<State>, acts: seq<Action>, i: nat): seq<(nat, Response)>
    requires i <= |acts| && |tr| == |acts| + 1
  {
    if i == 0 then [] else Taken(tr, acts, i - 1) + NewTaken(tr[i - 1], tr[i], acts[i - 1])
  }

  /** The answer that is counted on the bar and not yet in the queue. */
  function BeingReported(s: State): seq<(nat, Response)> {
    if s.loop.Reporting? then [(s.loop.client, s.loop.response)] else []
  }

  lemma AnswerStep(cfg: Config, s: State, a: Action, s': State)
    requires Enabled(cfg, s, a) && s' == Apply(cfg, s, a)
    ensures NewTaken(s, s', a) + (s'.responses + BeingReported(s'))
      == (s.responses + BeingReported(s)) + NewAnswer(s, a)
  {
    if a == Handle {
      assert s.responses == [s.responses[0]] + s.responses[1..];
    }
  }

  /** In every run the answers the handler has taken, those in the queue and the one being reported are the
      server's answers to all clients, in the order in which they came. */
  lemma {:induction false} AnswersInOrder(cfg: Config, tr: seq<State>, acts: seq<Action>, i: nat)
    requires IsRun(cfg, tr, acts) && i < |tr|
    ensures Taken(tr, acts, i) + (tr[i].responses + BeingReported(tr[i])) == Answers(tr, acts, i)
  {
    if i > 0 {
      var s, a, s' := tr[i - 1], acts[i - 1], tr[i];
      assert s' == Apply(cfg, s, a);
      AnswersInOrder(cfg, tr, acts, i - 1);
      AnswerStep(cfg, s, a, s');
      var answers := Answers(tr, acts, i - 1);
      assert [] + answers == answers && [] + (answers + NewAnswer(s, a)) == answers + NewAnswer(s, a);
      QueueMoves(Taken(tr, acts, i - 1), NewTaken(s, s', a), s'.responses + BeingReported(s'),
                 s.responses + BeingReported(s), NewAnswer(s, a), [], answers);
    }
  }

  // ---------------------------------------------------------------- sub-questions

  /** In every run the pool is the configured one without as many of its last entries as rounds were queued,
      so the sub-questions are drawn from the end of the pool, each once. */
  lemma {:induction false} PoolInOrder(cfg: Config, tr: seq<State>, acts: seq<Action>, i: nat)
    requires IsRun(cfg, tr, acts) && i < |tr|
    ensures var n := |Requeued(tr, acts, i)|; n <= |cfg.pool| && tr[i].pool == cfg.pool[..|cfg.pool| - n]
  {
    if i == 0 {
      assert cfg.pool[..|cfg.pool|] == cfg.pool;
    } else {
      var n, m := |Requeued(tr, acts, i - 1)|, |NewReady(tr[i - 1], tr[i], acts[i - 1])|;
      PoolInOrder(cfg, tr, acts, i - 1);
      PoolStepOfRun(cfg, tr, acts, i);
      assert |Requeued(tr, acts, i)| == n + m;
      PrefixOfPrefix(cfg.pool, n, m);
    }
  }

  lemma PoolStepOfRun(cfg: Config, tr: seq<State>, acts: seq<Action>, i: nat)
    requires IsRun(cfg, tr, acts) && 0 < i < |tr|
    ensures var m := |NewReady(tr[i - 1], tr[i], acts[i - 1])|;
      m <= |tr[i - 1].pool| && tr[i].pool == tr[i - 1].pool[..|tr[i - 1].pool| - m]
  {
    PoolStep(cfg, tr[i - 1], acts[i - 1], tr[i]);
  }

  lemma PrefixOfPrefix<T>(q: seq<T>, m: nat, n: nat)
    requires m + n <= |q|
    ensures q[..|q| - m][..|q| - m - n] == q[..|q| - (m + n)]
  {
  }

  lemma PoolStep(cfg: Config, s: State, a: Action, s': State)
    requires Enabled(cfg, s, a) && s' == Apply(cfg, s, a)
    ensures |NewReady(s, s', a)| <= |s.pool| && s'.pool == s.pool[..|s.pool| - |NewReady(s, s', a)|]
  {
  }
}
