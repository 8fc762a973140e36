/** The mixed workload of bench_mix.py as a step protocol: users with a random number of rounds are
    generated on demand, served, and queued again with a start time for their next round. */
module MixedWorkload {
  import opened Collections

  datatype Config = Config(rounds: nat, cumulative: seq<int>, maxParallel: int,
                           meanReturn: seq<int>, meanInterval: seq<real>)

  ghost predicate ValidConfig(cfg: Config) {
    cfg.rounds > 0 && |cfg.cumulative| == |cfg.meanReturn| == |cfg.meanInterval| == cfg.rounds
  }

  datatype User = User(current: nat, total: nat, prompt: string, returnTokens: int, start: real)

  /** Token sum and number of entries of one round. */
  datatype Stat = Stat(tokens: nat, count: nat)

  datatype Reply = Reply(success: bool, text: string, itl: nat)

  /** The random draws of one call: a ratio, a candidate prompt, a number of tokens, an interval. */
  datatype Draw = Draw(ratio: int, prompt: string, promptLen: nat, tokens: int, interval: real)

  datatype Handler =
    | Waiting     // blocked on the response queue
    | Counting    // has pushed a user, about to count the request as completed
    | Checking    // timed out, about to look whether the sender is done
    | Exited

  /** A user is named by its index in `users`, which keeps every user ever generated. A queue entry
      carries the user's start time. `finished`, `lost` (answer failed, slot kept) and `dropped` (task
      raised, slot given back) are history. */
  datatype State = State(users: seq<User>, queue: seq<(nat, real)>, tasks: seq<(nat, string)>,
                         responses: seq<(nat, Reply)>, handler: Handler, sent: nat, completed: nat, stopped: bool,
                         userStats: seq<nat>, inputStats: seq<Stat>, outputStats: seq<Stat>,
                         finished: set<nat>, lost: set<nat>, dropped: set<nat>)

  datatype Action = Send(draw: Draw, now: real) | Stop | Finish(task: nat, reply: Reply) | Raise(task: nat)
                  | Handle(draw: Draw, now: real) | CountDone | Expire | Decide

  function Init(cfg: Config): State {
    State([], [], [], [], Waiting, 0, 0, false, seq(cfg.rounds, _ => 0),
          seq(cfg.rounds, _ => Stat(0, 0)), seq(cfg.rounds, _ => Stat(0, 0)), {}, {}, {})
  }

  // ---------------------------------------------------------------- the user generator

  /** The number of rounds for a drawn ratio: one more than the first index whose cumulative ratio
      exceeds it, or all rounds when none does. */
  function RoundsFrom(cumulative: seq<int>, ratio: int, i: nat): (r: nat)
    requires i < |cumulative|
    ensures i < r <= |cumulative|
    ensures ratio < cumulative[r - 1] || r == |cumulative|
    ensures forall j :: i <= j < r - 1 ==> cumulative[j] <= ratio
    decreases |cumulative| - i
  {
    if ratio < cumulative[i] || i + 1 == |cumulative| then i + 1 else RoundsFrom(cumulative, ratio, i + 1)
  }

  function Bump(stats: seq<Stat>, r: nat, tokens: nat): (b: seq<Stat>)
    requires r < |stats|
    ensures |b| == |stats|
  {
    stats[r := Stat(stats[r].tokens + tokens, stats[r].count + 1)]
  }

  function Digit(d: nat): char
    requires d < 10
  {
    ('0' as int + d) as char
  }

  function Decimal(n: nat): string {
    (if n < 10 then [] else Decimal(n / 10)) + [Digit(n % 10)]
  }

  /** Reading a string of digits. */
  function ValueOf(digits: string): int {
    if digits == [] then 0 else 10 * ValueOf(digits[..|digits| - 1]) + (digits[|digits| - 1] as int - '0' as int)
  }

  predicate IsDigit(c: char) {
    '0' <= c <= '9'
  }

  /** Digits only, without a leading zero, that read as `n`. */
  ghost predicate Denotes(digits: string, n: nat) {
    && ValueOf(digits) == n && digits != [] && (n > 0 ==> digits[0] != '0')
    && forall k :: 0 <= k < |digits| ==> IsDigit(digits[k])
  }

  lemma DigitReads(d: nat)
    requires d < 10
    ensures Denotes([Digit(d)], d)
  {
    assert [Digit(d)][..0] == [];
  }

  lemma DigitBehind(digits: string, n: nat, d: nat)
    requires Denotes(digits, n) && n > 0 && d < 10
    ensures Denotes(digits + [Digit(d)], 10 * n + d)
  {
    var all := digits + [Digit(d)];
    assert all[..|digits|] == digits && all[|digits|] == Digit(d);
  }

  lemma {:induction false} DecimalReads(n: nat)
    ensures Denotes(Decimal(n), n)
  {
    DigitReads(n % 10);
    if n >= 10 {
      DecimalReads(n / 10);
      DigitBehind(Decimal(n / 10), n / 10, n % 10);
    } else {
      assert [] + [Digit(n)] == [Digit(n)];
    }
  }

  function NewUser(cfg: Config, id: nat, d: Draw): User
    requires ValidConfig(cfg)
  {
    User(0, RoundsFrom(cfg.cumulative, d.ratio, 0), Decimal(id) + " " + d.prompt,
         if d.tokens > 0 then d.tokens else cfg.meanReturn[0], 0.0)
  }

  /** The user in its next round. */
  function NextRound(cfg: Config, u: User, text: string, d: Draw, now: real): User
    requires ValidConfig(cfg) && u.current + 1 < cfg.rounds
  {
    var r := u.current + 1;
    User(r, u.total, u.prompt + (text + d.prompt), if d.tokens > 0 then d.tokens else cfg.meanReturn[r],
         now + if d.interval > 0.0 then d.interval else cfg.meanInterval[r])
  }

  /** The index the scan leaves in `idx`: the first entry that starts later, else the last entry. */
  function ScanIndex(q: seq<(nat, real)>, start: real, i: nat): (r: nat)
    requires i < |q|
    ensures i <= r < |q|
    ensures start < q[r].1 || r == |q| - 1
    ensures forall j :: i <= j < r ==> q[j].1 <= start
    decreases |q| - i
  {
    if start < q[i].1 || i + 1 == |q| then i else ScanIndex(q, start, i + 1)
  }

  function Inserted(q: seq<(nat, real)>, e: (nat, real)): seq<(nat, real)> {
    if q == [] then [e]
    else
      var idx := ScanIndex(q, e.1, 0);
      q[..idx] + [e] + q[idx..]
  }

  // ---------------------------------------------------------------- steps

  predicate Due(q: seq<(nat, real)>, now: real) {
    q != [] && now > q[0].1
  }

  predicate Enabled(cfg: Config, s: State, a: Action) {
    match a
    case Send(_, now) =>
      && !s.stopped && s.sent - s.completed < cfg.maxParallel
      && |s.userStats| == |s.inputStats| == cfg.rounds == |cfg.cumulative| == |cfg.meanReturn| == |cfg.meanInterval|
      && cfg.rounds > 0 && (Due(s.queue, now) ==> s.queue[0].0 < |s.users|)
    case Stop => !s.stopped
    case Finish(k, _) => !s.stopped && k < |s.tasks|
    case Raise(k) => !s.stopped && k < |s.tasks|
    case Handle(_, _) =>
      && s.handler.Waiting? && s.responses != [] && s.responses[0].0 < |s.users|
      && |cfg.cumulative| == |cfg.meanReturn| == |cfg.meanInterval| == cfg.rounds
      && |s.inputStats| == |s.outputStats| == cfg.rounds
      && var u := s.users[s.responses[0].0]; u.current < u.total <= cfg.rounds
    case CountDone => s.handler.Counting?
    case Expire => s.handler.Waiting? && s.responses == []
    case Decide => s.handler.Checking?
  }

  function ApplySend(cfg: Config, s: State, d: Draw, now: real): State
    requires Enabled(cfg, s, Send(d, now))
  {
    if Due(s.queue, now) then
      var u := s.queue[0].0;
      s.(queue := s.queue[1..], tasks := s.tasks + [(u, s.users[u].prompt)], sent := s.sent + 1)
    else
      var user := NewUser(cfg, |s.users|, d);
      s.(users := s.users + [user], tasks := s.tasks + [(|s.users|, user.prompt)], sent := s.sent + 1,
         inputStats := Bump(s.inputStats, 0, d.promptLen),
         userStats := s.userStats[user.total - 1 := s.userStats[user.total - 1] + 1])
  }

  function ApplyPush(cfg: Config, s: State, u: nat, r: Reply, d: Draw, now: real): State
    requires ValidConfig(cfg) && u < |s.users| && s.users[u].current < s.users[u].total <= cfg.rounds
    requires |s.inputStats| == |s.outputStats| == cfg.rounds
  {
    var user := s.users[u];
    var s1 := s.(outputStats := Bump(s.outputStats, user.current, r.itl + 1), handler := Counting);
    if user.current + 1 >= user.total then
      s1.(users := s.users[u := user.(current := user.current + 1)], finished := s.finished + {u})
    else
      var next := NextRound(cfg, user, r.text, d, now);
      s1.(users := s.users[u := next], inputStats := Bump(s.inputStats, next.current, d.promptLen),
          queue := Inserted(s.queue, (u, next.start)))
  }

  function ApplyHandle(cfg: Config, s: State, d: Draw, now: real): State
    requires Enabled(cfg, s, Handle(d, now))
  {
    var u, r := s.responses[0].0, s.responses[0].1;
    var s1 := s.(responses := s.responses[1..]);
    if !r.success then s1.(lost := s.lost + {u}) else ApplyPush(cfg, s1, u, r, d, now)
  }

  function Apply(cfg: Config, s: State, a: Action): State
    requires Enabled(cfg, s, a)
  {
    match a
    case Send(d, now) => ApplySend(cfg, s, d, now)
    case Stop => s.(stopped := true)
    case Finish(k, r) => s.(tasks := Remove(s.tasks, k), responses := s.responses + [(s.tasks[k].0, r)])
    case Raise(k) => s.(tasks := Remove(s.tasks, k), completed := s.completed + 1,
                        dropped := s.dropped + {s.tasks[k].0})
    case Handle(d, now) => ApplyHandle(cfg, s, d, now)
    case CountDone => s.(handler := Waiting, completed := s.completed + 1)
    case Expire => s.(handler := Checking)
    case Decide => s.(handler := if s.stopped then Exited else Waiting)
  }

  ghost predicate StepAt(cfg: Config, tr: seq<State>, acts: seq<Action>, i: nat)
    requires i < |acts| && |tr| == |acts| + 1
  {
    Enabled(cfg, tr[i], acts[i]) && tr[i + 1] == Apply(cfg, tr[i], acts[i])
  }

  ghost predicate IsRun(cfg: Config, tr: seq<State>, acts: seq<Action>) {
    && ValidConfig(cfg) && |tr| == |acts| + 1 && tr[0] == Init(cfg)
    && forall i :: 0 <= i < |acts| ==> StepAt(cfg, tr, acts, i)
  }

  // ---------------------------------------------------------------- the queue

  ghost predicate Sorted(q: seq<(nat, real)>) {
    forall i, j :: 0 <= i < j < |q| ==> q[i].1 <= q[j].1
  }

  /** Pushing adds exactly the one entry. */
  lemma InsertedAdds(q: seq<(nat, real)>, e: (nat, real))
    ensures multiset(Inserted(q, e)) == multiset(q) + multiset{e}
  {
    if q != [] {
      var idx := ScanIndex(q, e.1, 0);
      assert q == q[..idx] + q[idx..];
    }
  }

  /** Where the new entry stands; the others are as they were. */
  lemma InsertedAt(q: seq<(nat, real)>, e: (nat, real))
    ensures var idx := if q == [] then 0 else ScanIndex(q, e.1, 0);
      |Inserted(q, e)| == |q| + 1 && Inserted(q, e)[idx] == e && Remove(Inserted(q, e), idx) == q
  {
    if q != [] {
      var idx := ScanIndex(q, e.1, 0);
      assert Inserted(q, e)[..idx] == q[..idx] && Inserted(q, e)[idx + 1..] == q[idx..];
      assert q[..idx] + q[idx..] == q;
    }
  }

  lemma {:induction false} CountConcat(a: seq<(nat, real)>, b: seq<(nat, real)>, c: nat)
    ensures Count(a + b, c) == Count(a, c) + Count(b, c)
    decreases |b|
  {
    if b == [] {
      assert a + b == a;
    } else {
      CountConcat(a, b[..|b| - 1], c);
      assert (a + b)[..|a + b| - 1] == a + b[..|b| - 1];
    }
  }

  lemma InsertedCounts(q: seq<(nat, real)>, e: (nat, real), c: nat)
    ensures Count(Inserted(q, e), c) == Count(q, c) + if e.0 == c then 1 else 0
  {
    if q == [] {
      CountSnoc([], e, c);
      assert [] + [e] == [e];
    } else {
      var idx := ScanIndex(q, e.1, 0);
      CountConcat(q[..idx] + [e], q[idx..], c);
      CountSnoc(q[..idx], e, c);
      CountConcat(q[..idx], q[idx..], c);
      assert q == q[..idx] + q[idx..];
    }
  }

  /** A push into a sorted, non-empty queue leaves it sorted exactly when the new start time is not
      after the last queued one: the scan never inserts behind the last entry. */
  lemma PushKeepsSortedExactlyWhen(q: seq<(nat, real)>, e: (nat, real))
    requires q != [] && Sorted(q)
    ensures Sorted(Inserted(q, e)) <==> e.1 <= Last(q).1
  {
    var idx := ScanIndex(q, e.1, 0);
    var r := Inserted(q, e);
    assert r[idx] == e && r[idx + 1] == q[idx];
    assert forall k :: 0 <= k < idx ==> r[k] == q[k];
    assert forall k :: idx < k < |r| ==> r[k] == q[k - 1];
    if e.1 <= Last(q).1 {
      assert e.1 <= q[idx].1;
    }
  }

  lemma InsertedMembers(q: seq<(nat, real)>, e: (nat, real))
    ensures forall k :: 0 <= k < |Inserted(q, e)| ==> Inserted(q, e)[k] == e || Inserted(q, e)[k] in q
  {
  }

  ghost predicate SomeoneDue(q: seq<(nat, real)>, now: real) {
    exists k :: 0 <= k < |q| && now > q[k].1
  }

  /** Whenever some queued user is due, one is taken. */
  ghost predicate Serves(q: seq<(nat, real)>) {
    forall now :: Due(q, now) <==> SomeoneDue(q, now)
  }

  /** The sender looks at the head only, so it serves due users exactly when nobody starts earlier. */
  lemma ServesByHead(q: seq<(nat, real)>)
    ensures Serves(q) <==> forall k :: 0 <= k < |q| ==> q[0].1 <= q[k].1
  {
    if Serves(q) {
      forall k | 0 <= k < |q| ensures q[0].1 <= q[k].1 {
        assert !Due(q, q[0].1);
        assert !SomeoneDue(q, q[0].1);
      }
    }
  }

  /** A queue serves due users now and after any number of pops exactly when it is sorted. */
  lemma SortedQueueServesDueUsers(q: seq<(nat, real)>)
    ensures Sorted(q) <==> forall n :: 0 <= n <= |q| ==> Serves(q[n..])
  {
    forall n | 0 <= n <= |q|
      ensures Serves(q[n..]) <==> forall k :: n <= k < |q| ==> q[n].1 <= q[k].1
    {
      ServesByHead(q[n..]);
      assert forall k :: n <= k < |q| ==> q[k] == q[n..][k - n];
    }
  }

  /** After a push, due users are still served exactly when the queue held more than one entry or the
      new user does not start after that one. */
  lemma PushServesExactlyWhen(q: seq<(nat, real)>, e: (nat, real))
    requires q != [] && Serves(q)
    ensures Serves(Inserted(q, e)) <==> |q| > 1 || e.1 <= q[0].1
  {
    var r := Inserted(q, e);
    ServesByHead(q);
    ServesByHead(r);
    if |q| == 1 {
      assert r == [e, q[0]];
      assert r[1].1 == q[0].1;
    } else {
      InsertedMembers(q, e);
      forall k | 0 <= k < |r| ensures r[0].1 <= r[k].1 {
        assert r[k] == e || r[k] in q;
      }
    }
  }

  /** Two pushes can put a later user in front: then a due user waits while new ones are generated. */
  lemma DueUserOvertaken()
    ensures var q := Inserted(Inserted([], (0, 10.0)), (1, 20.0));
      q == [(1, 20.0), (0, 10.0)] && !Sorted(q) && !Due(q, 15.0) && 15.0 > q[1].1
  {
    var q := Inserted([(0, 10.0)], (1, 20.0));
    assert q == [(1, 20.0), (0, 10.0)];
    assert q[0].1 > q[1].1;
  }

  // ---------------------------------------------------------------- every user is in one place

  function Places(s: State, u: nat): nat {
    Count(s.queue, u) + Count(s.tasks, u) + Count(s.responses, u)
    + One(u in s.finished) + One(u in s.lost) + One(u in s.dropped)
  }

  ghost predicate Partition(s: State) {
    forall u: nat :: Places(s, u) == One(u < |s.users|)
  }

  lemma SendMoves(cfg: Config, s: State, d: Draw, now: real, u: nat)
    requires Partition(s) && Enabled(cfg, s, Send(d, now))
    ensures var s' := Apply(cfg, s, Send(d, now)); Places(s', u) == One(u < |s'.users|)
  {
    assert Places(s, u) == One(u < |s.users|);
    if Due(s.queue, now) {
      CountTail(s.queue, u);
      CountSnoc(s.tasks, (s.queue[0].0, s.users[s.queue[0].0].prompt), u);
    } else {
      CountSnoc(s.tasks, (|s.users|, NewUser(cfg, |s.users|, d).prompt), u);
    }
  }

  lemma FinishMoves(cfg: Config, s: State, k: nat, r: Reply, u: nat)
    requires Enabled(cfg, s, Finish(k, r))
    ensures Places(Apply(cfg, s, Finish(k, r)), u) == Places(s, u)
  {
    CountRemove(s.tasks, k, u);
    CountSnoc(s.responses, (s.tasks[k].0, r), u);
  }

  lemma RaiseMoves(cfg: Config, s: State, k: nat, u: nat)
    requires Partition(s) && Enabled(cfg, s, Raise(k))
    ensures Places(Apply(cfg, s, Raise(k)), u) == Places(s, u)
  {
    CountMember(s.tasks, k);
    assert Places(s, s.tasks[k].0) <= 1;
    CountRemove(s.tasks, k, u);
  }

  lemma HeadOfQueue(s: State)
    requires Partition(s) && s.responses != []
    ensures var u := s.responses[0].0;
      && u < |s.users| && Count(s.queue, u) == Count(s.tasks, u) == 0 && Count(s.responses, u) == 1
      && u !in s.finished && u !in s.lost && u !in s.dropped
  {
    CountMember(s.responses, 0);
    assert Places(s, s.responses[0].0) == One(s.responses[0].0 < |s.users|);
  }

  lemma HandleMoves(cfg: Config, s: State, d: Draw, now: real, u: nat)
    requires Partition(s) && Enabled(cfg, s, Handle(d, now))
    ensures Places(Apply(cfg, s, Handle(d, now)), u) == Places(s, u)
  {
    HeadOfQueue(s);
    CountTail(s.responses, u);
    var h, r := s.responses[0].0, s.responses[0].1;
    if r.success && s.users[h].current + 1 < s.users[h].total {
      InsertedCounts(s.queue, (h, NextRound(cfg, s.users[h], r.text, d, now).start), u);
    }
  }

  lemma PartitionPreserved(cfg: Config, s: State, a: Action)
    requires Partition(s) && Enabled(cfg, s, a)
    ensures Partition(Apply(cfg, s, a))
  {
    var s' := Apply(cfg, s, a);
    forall u: nat ensures Places(s', u) == One(u < |s'.users|) {
      assert Places(s, u) == One(u < |s.users|);
      match a
      case Send(d, now) => SendMoves(cfg, s, d, now, u);
      case Finish(k, r) => FinishMoves(cfg, s, k, r, u);
      case Raise(k) => RaiseMoves(cfg, s, k, u);
      case Handle(d, now) => HandleMoves(cfg, s, d, now, u);
      case _ =>
    }
  }

  // ---------------------------------------------------------------- statistics

  /** Users that are in round `r` and not finished. */
  function UsersIn(users: seq<User>, r: nat): nat {
    if users == [] then 0
    else UsersIn(users[..|users| - 1], r) + One(users[|users| - 1].current == r < users[|users| - 1].total)
  }

  /** Users that have completed round `r`. */
  function UsersPast(users: seq<User>, r: nat): nat {
    if users == [] then 0 else UsersPast(users[..|users| - 1], r) + One(users[|users| - 1].current > r)
  }

  /** Users generated with `k` rounds. */
  function UsersOf(users: seq<User>, k: nat): nat {
    if users == [] then 0 else UsersOf(users[..|users| - 1], k) + One(users[|users| - 1].total == k)
  }

  lemma {:induction false} ReplaceUser(users: seq<User>, u: nat, x: User, r: nat)
    requires u < |users|
    ensures UsersIn(users[u := x], r)
      == UsersIn(users, r) - One(users[u].current == r < users[u].total) + One(x.current == r < x.total)
    ensures x.total == users[u].total ==> UsersOf(users[u := x], r) == UsersOf(users, r)
  {
    var n := |users| - 1;
    if u == n {
      assert users[u := x][..n] == users[..n];
    } else {
      ReplaceUser(users[..n], u, x, r);
      assert users[u := x][..n] == users[..n][u := x];
    }
  }

  lemma AddUser(users: seq<User>, x: User, r: nat)
    ensures UsersIn(users + [x], r) == UsersIn(users, r) + One(x.current == r < x.total)
    ensures UsersOf(users + [x], r) == UsersOf(users, r) + One(x.total == r)
  {
    assert (users + [x])[..|users|] == users;
  }

  ghost predicate Statistics(cfg: Config, s: State) {
    && |s.userStats| == |s.inputStats| == |s.outputStats| == cfg.rounds
    && Sum(s.userStats) == |s.users|
    && (forall k :: 0 <= k < cfg.rounds ==> s.userStats[k] == UsersOf(s.users, k + 1))
    && (forall r :: 0 <= r < cfg.rounds ==> s.inputStats[r].count == s.outputStats[r].count + UsersIn(s.users, r))
  }

  /** Answers are counted once for each user that completes the round. */
  ghost predicate Completions(cfg: Config, s: State) {
    |s.outputStats| == cfg.rounds && forall r :: 0 <= r < cfg.rounds ==> s.outputStats[r].count == UsersPast(s.users, r)
  }

  lemma {:induction false} ReplacePast(users: seq<User>, u: nat, x: User, r: nat)
    requires u < |users|
    ensures UsersPast(users[u := x], r) == UsersPast(users, r) - One(users[u].current > r) + One(x.current > r)
  {
    var n := |users| - 1;
    if u == n {
      assert users[u := x][..n] == users[..n];
    } else {
      ReplacePast(users[..n], u, x, r);
      assert users[u := x][..n] == users[..n][u := x];
    }
  }

  lemma PushCompletions(cfg: Config, s: State, u: nat, r: Reply, d: Draw, now: real)
    requires ValidConfig(cfg) && u < |s.users| && s.users[u].current < s.users[u].total <= cfg.rounds
    requires |s.inputStats| == cfg.rounds && Completions(cfg, s)
    ensures Completions(cfg, ApplyPush(cfg, s, u, r, d, now))
  {
    var s' := ApplyPush(cfg, s, u, r, d, now);
    assert s'.users == s.users[u := s'.users[u]];
    forall k: nat ensures UsersPast(s'.users, k) == UsersPast(s.users, k) + One(k == s.users[u].current) {
      ReplacePast(s.users, u, s'.users[u], k);
    }
  }

  lemma CompletionsPreserved(cfg: Config, s: State, a: Action)
    requires ValidConfig(cfg) && Completions(cfg, s) && Enabled(cfg, s, a)
    ensures Completions(cfg, Apply(cfg, s, a))
  {
    match a
    case Send(d, now) =>
      if !Due(s.queue, now) {
        assert ApplySend(cfg, s, d, now).users[..|s.users|] == s.users;
      }
    case Handle(d, now) =>
      if s.responses[0].1.success {
        PushCompletions(cfg, s.(responses := s.responses[1..]), s.responses[0].0, s.responses[0].1, d, now);
      }
    case _ =>
  }

  /** In every run the number of answers counted for a round is the number of users that have completed it. */
  lemma {:induction false} RunCompletions(cfg: Config, tr: seq<State>, acts: seq<Action>, i: nat)
    requires IsRun(cfg, tr, acts) && i < |tr|
    ensures Completions(cfg, tr[i])
  {
    if i > 0 {
      RunCompletions(cfg, tr, acts, i - 1);
      assert StepAt(cfg, tr, acts, i - 1);
      CompletionsPreserved(cfg, tr[i - 1], acts[i - 1]);
    }
  }

  ghost predicate UserRounds(cfg: Config, s: State) {
    forall u :: 0 <= u < |s.users| ==>
      && 1 <= s.users[u].total <= cfg.rounds
      && (if u in s.finished then s.users[u].current == s.users[u].total
          else s.users[u].current < s.users[u].total)
  }

  lemma SendStatistics(cfg: Config, s: State, d: Draw, now: real)
    requires Statistics(cfg, s) && Enabled(cfg, s, Send(d, now))
    ensures Statistics(cfg, Apply(cfg, s, Send(d, now)))
  {
    if !Due(s.queue, now) {
      var user := NewUser(cfg, |s.users|, d);
      SumUpdate(s.userStats, user.total - 1, s.userStats[user.total - 1] + 1);
      forall r: nat ensures UsersIn(s.users + [user], r) == UsersIn(s.users, r) + One(user.current == r < user.total)
        && UsersOf(s.users + [user], r) == UsersOf(s.users, r) + One(user.total == r)
      {
        AddUser(s.users, user, r);
      }
    }
  }

  lemma PushStatistics(cfg: Config, s: State, u: nat, r: Reply, d: Draw, now: real)
    requires ValidConfig(cfg) && u < |s.users| && s.users[u].current < s.users[u].total <= cfg.rounds
    requires Statistics(cfg, s)
    ensures Statistics(cfg, ApplyPush(cfg, s, u, r, d, now))
  {
    var s' := ApplyPush(cfg, s, u, r, d, now);
    var x := s'.users[u];
    assert s'.users == s.users[u := x];
    forall k: nat ensures UsersOf(s'.users, k) == UsersOf(s.users, k)
      && UsersIn(s'.users, k) == UsersIn(s.users, k) - One(k == s.users[u].current) + One(x.current == k < x.total)
    {
      ReplaceUser(s.users, u, x, k);
    }
  }

  lemma StatisticsPreserved(cfg: Config, s: State, a: Action)
    requires ValidConfig(cfg) && Statistics(cfg, s) && Enabled(cfg, s, a)
    ensures Statistics(cfg, Apply(cfg, s, a))
  {
    match a
    case Send(d, now) => SendStatistics(cfg, s, d, now);
    case Handle(d, now) =>
      if s.responses[0].1.success {
        PushStatistics(cfg, s.(responses := s.responses[1..]), s.responses[0].0, s.responses[0].1, d, now);
      }
    case _ =>
  }

  lemma UserRoundsPreserved(cfg: Config, s: State, a: Action)
    requires ValidConfig(cfg) && Partition(s) && UserRounds(cfg, s) && Enabled(cfg, s, a)
    ensures UserRounds(cfg, Apply(cfg, s, a))
  {
    if a.Handle? {
      HeadOfQueue(s);
      HandleUserRounds(cfg, s, a.draw, a.now);
    } else if a.Send? {
      assert Places(s, |s.users|) == 0;
      SendUserRounds(cfg, s, a.draw, a.now);
    }
  }

  lemma HandleUserRounds(cfg: Config, s: State, d: Draw, now: real)
    requires UserRounds(cfg, s) && Enabled(cfg, s, Handle(d, now)) && s.responses[0].0 !in s.finished
    ensures UserRounds(cfg, ApplyHandle(cfg, s, d, now))
  {
  }

  lemma SendUserRounds(cfg: Config, s: State, d: Draw, now: real)
    requires UserRounds(cfg, s) && Enabled(cfg, s, Send(d, now)) && |s.users| !in s.finished
    ensures UserRounds(cfg, ApplySend(cfg, s, d, now))
  {
  }

  // ---------------------------------------------------------------- slots and start times

  ghost predicate Slots(cfg: Config, s: State) {
    && s.sent == s.completed + |s.tasks| + |s.responses| + |s.lost| + One(s.handler.Counting?)
    && s.sent - s.completed <= (if cfg.maxParallel > 0 then cfg.maxParallel else 0)
  }

  lemma SlotsPreserved(cfg: Config, s: State, a: Action)
    requires Partition(s) && Slots(cfg, s) && Enabled(cfg, s, a)
    ensures Slots(cfg, Apply(cfg, s, a))
  {
    if a.Handle? {
      HeadOfQueue(s);
      HandleSlots(cfg, s, a.draw, a.now);
    }
  }

  lemma HandleSlots(cfg: Config, s: State, d: Draw, now: real)
    requires Slots(cfg, s) && Enabled(cfg, s, Handle(d, now)) && s.responses[0].0 !in s.lost
    ensures Slots(cfg, ApplyHandle(cfg, s, d, now))
  {
  }

  ghost predicate StartTimes(s: State) {
    forall k :: 0 <= k < |s.queue| ==> s.queue[k].0 < |s.users| && s.queue[k].1 == s.users[s.queue[k].0].start
  }

  lemma StartTimesPreserved(cfg: Config, s: State, a: Action)
    requires Partition(s) && StartTimes(s) && Enabled(cfg, s, a)
    ensures StartTimes(Apply(cfg, s, a))
  {
    if a.Handle? {
      HeadOfQueue(s);
      forall k | 0 <= k < |s.queue| ensures s.queue[k].0 != s.responses[0].0 { CountMember(s.queue, k); }
      HandleStartTimes(cfg, s, a.draw, a.now);
    }
  }

  lemma HandleStartTimes(cfg: Config, s: State, d: Draw, now: real)
    requires StartTimes(s) && Enabled(cfg, s, Handle(d, now))
    requires forall k :: 0 <= k < |s.queue| ==> s.queue[k].0 != s.responses[0].0
    ensures StartTimes(Apply(cfg, s, Handle(d, now)))
  {
    var u, r := s.responses[0].0, s.responses[0].1;
    if r.success && s.users[u].current + 1 < s.users[u].total {
      InsertedMembers(s.queue, (u, NextRound(cfg, s.users[u], r.text, d, now).start));
    }
  }

  // ---------------------------------------------------------------- every state of every run

  ghost predicate Inv(cfg: Config, s: State) {
    ValidConfig(cfg) && Partition(s) && Statistics(cfg, s) && UserRounds(cfg, s) && Slots(cfg, s) && StartTimes(s)
  }

  lemma InvPreserved(cfg: Config, s: State, a: Action)
    requires Inv(cfg, s) && Enabled(cfg, s, a)
    ensures Inv(cfg, Apply(cfg, s, a))
  {
    PartitionPreserved(cfg, s, a);
    StatisticsPreserved(cfg, s, a);
    UserRoundsPreserved(cfg, s, a);
    SlotsPreserved(cfg, s, a);
    StartTimesPreserved(cfg, s, a);
  }

  lemma {:induction false} RunInv(cfg: Config, tr: seq<State>, acts: seq<Action>, i: nat)
    requires IsRun(cfg, tr, acts) && i < |tr|
    ensures Inv(cfg, tr[i])
  {
    if i == 0 {
      SumOfZeros(Init(cfg).userStats);
    } else {
      RunInv(cfg, tr, acts, i - 1);
      assert StepAt(cfg, tr, acts, i - 1);
      InvPreserved(cfg, tr[i - 1], acts[i - 1]);
    }
  }

  /** In every run the statistics tell the population: as many users as were generated, split by their
      number of rounds, and per round as many more prompts than answers as there are users who have
      entered that round and not left it. */
  lemma RunStatistics(cfg: Config, tr: seq<State>, acts: seq<Action>, i: nat, r: nat)
    requires IsRun(cfg, tr, acts) && i < |tr| && r < cfg.rounds
    ensures var s := tr[i];
      && |s.userStats| == |s.inputStats| == |s.outputStats| == cfg.rounds
      && Sum(s.userStats) == |s.users| && s.userStats[r] == UsersOf(s.users, r + 1)
      && s.inputStats[r].count - s.outputStats[r].count == UsersIn(s.users, r)
  {
    RunInv(cfg, tr, acts, i);
  }

  /** A user that has not left its round is queued, in flight, unanswered, lost or dropped; a finished
      one has completed all of its between 1 and `num_rounds` rounds. */
  lemma RunUsers(cfg: Config, tr: seq<State>, acts: seq<Action>, i: nat, u: nat)
    requires IsRun(cfg, tr, acts) && i < |tr| && u < |tr[i].users|
    ensures var s, user := tr[i], tr[i].users[u];
      && 1 <= user.total <= cfg.rounds && user.current <= user.total
      && One(u in Tags(s.queue)) + One(u in Tags(s.tasks)) + One(u in Tags(s.responses))
         + One(u in s.lost) + One(u in s.dropped) == One(user.current < user.total)
  {
    RunInv(cfg, tr, acts, i);
    assert Places(tr[i], u) == 1;
  }

  /** A queued user still has a round to go, and when it is sent its start time has passed. */
  lemma SentUserWasDue(cfg: Config, tr: seq<State>, acts: seq<Action>, i: nat)
    requires IsRun(cfg, tr, acts) && i < |acts| && acts[i].Send?
    ensures |tr[i + 1].tasks| > 0
    ensures var u := Last(tr[i + 1].tasks).0;
      if u < |tr[i].users|
      then u in Tags(tr[i].queue) && tr[i].users[u].start < acts[i].now && tr[i].users[u].current < tr[i].users[u].total
      else u == |tr[i].users| && !Due(tr[i].queue, acts[i].now)
  {
    var s := tr[i];
    RunInv(cfg, tr, acts, i);
    assert StepAt(cfg, tr, acts, i);
    assert tr[i + 1] == ApplySend(cfg, s, acts[i].draw, acts[i].now);
    if Due(s.queue, acts[i].now) {
      CountMember(s.queue, 0);
      assert Places(s, s.queue[0].0) == 1;
    }
  }

  /** At most `max_parallel` users are in flight; failed answers keep their slots. */
  lemma RunSlots(cfg: Config, tr: seq<State>, acts: seq<Action>, i: nat)
    requires IsRun(cfg, tr, acts) && i < |tr|
    ensures var s := tr[i]; s.sent - s.completed == |s.tasks| + |s.responses| + |s.lost| + One(s.handler.Counting?)
    ensures |tr[i].tasks| + |tr[i].lost| <= if cfg.maxParallel > 0 then cfg.maxParallel else 0
  {
    RunInv(cfg, tr, acts, i);
  }

  /** Neither sending nor handling ever runs into a missing index, whatever is drawn. */
  lemma NoLookupErrors(cfg: Config, tr: seq<State>, acts: seq<Action>, i: nat, d: Draw, now: real)
    requires IsRun(cfg, tr, acts) && i < |tr|
    ensures !tr[i].stopped && tr[i].sent - tr[i].completed < cfg.maxParallel ==> Enabled(cfg, tr[i], Send(d, now))
    ensures tr[i].handler.Waiting? && tr[i].responses != [] ==> Enabled(cfg, tr[i], Handle(d, now))
  {
    var s := tr[i];
    RunInv(cfg, tr, acts, i);
    if s.responses != [] {
      HeadOfQueue(s);
    }
  }
}
