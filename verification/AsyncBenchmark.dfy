/** The mutable state of hicache/bench_serving.py: the bounded request queue, the generator's budget
    and the tasks. Every method is exactly one step of the protocol in `AsyncServing`. */
module AsyncBenchmark {
  import opened Collections
  import opened AsyncServing

  class Benchmark {
    const cfg: Config
    var queue: seq<(nat, nat)>
    var waiting: seq<(nat, nat)>
    var running: seq<(nat, nat)>
    var convs: seq<Conversation>
    var budget: nat
    var timedOut: bool
    ghost var ended: set<nat>
    ghost var failed: set<nat>
    ghost var issued: seq<(nat, nat)>

    ghost function View(): State
      reads this
    {
      State(queue, waiting, running, convs, budget, timedOut, ended, failed, issued)
    }

    /** Every conversation is put into the queue, which has exactly enough room for all of them. */
    constructor (requests: seq<seq<Turn>>, numActual: nat, limit: nat)
      ensures cfg == Config(requests, numActual, limit) && View() == Init(cfg)
    {
      var entries: seq<(nat, nat)> := [];
      var all: seq<Conversation> := [];
      for c := 0 to |requests|
        invariant entries == seq(c, i => (i, 0))
        invariant all == seq(c, i requires 0 <= i < c => Conversation(requests[i], []))
      {
        entries := entries + [(c, 0)];
        all := all + [Conversation(requests[c], [])];
      }
      cfg := Config(requests, numActual, limit);
      queue, waiting, running, convs, budget, timedOut := entries, [], [], all, numActual, false;
      ended, failed, issued := {}, {}, [];
    }

    /** One turn of the generator's loop: the next queued request, or the end of waiting for one. */
    method NextRequest() returns (got: bool)
      requires budget > 0 && !timedOut
      modifies this
      ensures got <==> old(queue) != []
      ensures View() == Apply(cfg, old(View()), if got then Yield else GiveUp)
    {
      if queue == [] {
        timedOut := true;
        return false;
      }
      var request := queue[0];
      queue := queue[1..];
      budget := budget - 1;
      issued := issued + [request];
      waiting := waiting + [request];
      got := true;
    }

    /** A task gets past the semaphore and sends the messages so far with the next prompt appended. */
    method StartRequest(k: nat)
      requires Enabled(cfg, View(), Start(k))
      modifies this
      ensures View() == Apply(cfg, old(View()), Start(k))
    {
      var c, promptIdx := waiting[k].0, waiting[k].1;
      waiting := waiting[..k] + waiting[k + 1..];
      if promptIdx >= |convs[c].turns| {
        failed := failed + {c};
        return;
      }
      var conv := convs[c];
      var messages := conv.messages + [User(conv.turns[promptIdx].content)];
      convs := convs[c := conv.(messages := messages)];
      running := running + [(c, promptIdx)];
    }

    /** The server has answered: record the actual output length and the answer, and move the
        conversation to the end of the queue if it has turns left. */
    method AnswerRequest(k: nat, reply: string, outputLen: nat)
      requires Enabled(cfg, View(), Succeed(k, reply, outputLen))
      modifies this
      ensures View() == Apply(cfg, old(View()), Succeed(k, reply, outputLen))
    {
      var c, promptIdx := running[k].0, running[k].1;
      running := running[..k] + running[k + 1..];
      var conv := convs[c];
      conv := conv.(turns := conv.turns[promptIdx := conv.turns[promptIdx].(outputLen := outputLen)]);
      promptIdx := promptIdx + 1;
      conv := conv.(messages := conv.messages + [Assistant(reply)]);
      convs := convs[c := conv];
      if promptIdx < |conv.turns| {
        queue := queue + [(c, promptIdx)];
      } else {
        ended := ended + {c};
      }
    }

    method FailRequest(k: nat)
      requires Enabled(cfg, View(), Fail(k))
      modifies this
      ensures View() == Apply(cfg, old(View()), Fail(k))
    {
      failed := failed + {running[k].0};
      running := running[..k] + running[k + 1..];
    }
  }
}
