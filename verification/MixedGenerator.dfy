/** The objects of bench_mix.py: user records that are updated in place, and the generator that
    creates, queues and hands out users. */
module MixedGenerator {
  import opened Collections
  import opened MixedWorkload

  class UserData {
    const userId: nat
    var currentRound: nat
    const totalRounds: nat
    var prompt: string
    var returnTokens: int
    var start: real

    ghost function AsUser(): User
      reads this
    {
      User(currentRound, totalRounds, prompt, returnTokens, start)
    }

    constructor (userId: nat, totalRounds: nat, prompt: string, returnTokens: int)
      ensures this.userId == userId && AsUser() == User(0, totalRounds, prompt, returnTokens, 0.0)
    {
      this.userId, this.totalRounds := userId, totalRounds;
      this.currentRound, this.prompt, this.returnTokens, this.start := 0, prompt, returnTokens, 0.0;
    }
  }

  class UserGenerator {
    const cfg: Config
    var userId: nat
    var queue: seq<UserData>
    var userStats: seq<nat>
    var inputStats: seq<Stat>
    var outputStats: seq<Stat>

    ghost predicate Valid()
      reads this
    {
      ValidConfig(cfg) && |userStats| == |inputStats| == |outputStats| == cfg.rounds
    }

    /** The queue as entries of user and start time. */
    ghost function Entries(): (r: seq<(nat, real)>)
      reads this, queue
      ensures |r| == |queue|
    {
      seq(|queue|, i requires 0 <= i < |queue| reads this, queue => (queue[i].userId, queue[i].start))
    }

    constructor (cfg: Config)
      requires ValidConfig(cfg)
      ensures Valid() && this.cfg == cfg && userId == 0 && queue == []
      ensures userStats == Init(cfg).userStats && inputStats == outputStats == Init(cfg).inputStats
    {
      this.cfg := cfg;
      userId, queue := 0, [];
      userStats := seq(cfg.rounds, _ => 0);
      inputStats := seq(cfg.rounds, _ => Stat(0, 0));
      outputStats := seq(cfg.rounds, _ => Stat(0, 0));
    }

    method ChooseRounds(ratio: int) returns (rounds: nat)
      requires Valid()
      ensures rounds == RoundsFrom(cfg.cumulative, ratio, 0)
    {
      rounds := |cfg.cumulative|;
      var idx := 0;
      while idx < |cfg.cumulative|
        invariant 0 <= idx <= |cfg.cumulative| && rounds == |cfg.cumulative|
        invariant if idx < |cfg.cumulative|
          then RoundsFrom(cfg.cumulative, ratio, 0) == RoundsFrom(cfg.cumulative, ratio, idx)
          else RoundsFrom(cfg.cumulative, ratio, 0) == |cfg.cumulative|
      {
        if !(ratio >= cfg.cumulative[idx]) {
          rounds := idx + 1;
          break;
        }
        idx := idx + 1;
      }
    }

    method Gen(d: Draw) returns (user: UserData)
      requires Valid()
      modifies this
      ensures Valid() && fresh(user) && user.userId == old(userId) && userId == old(userId) + 1
      ensures user.AsUser() == NewUser(cfg, old(userId), d)
      ensures queue == old(queue) && outputStats == old(outputStats)
      ensures inputStats == Bump(old(inputStats), 0, d.promptLen)
      ensures userStats == old(userStats)[user.totalRounds - 1 := old(userStats)[user.totalRounds - 1] + 1]
    {
      var id := userId;
      userId := userId + 1;
      var totalRounds := ChooseRounds(d.ratio);
      inputStats := Bump(inputStats, 0, d.promptLen);
      var returnTokens := if d.tokens <= 0 then cfg.meanReturn[0] else d.tokens;
      user := new UserData(id, totalRounds, Decimal(id) + " " + d.prompt, returnTokens);
      userStats := userStats[totalRounds - 1 := userStats[totalRounds - 1] + 1];
    }

    /** The position the scan over the queue ends at. */
    method Scan(start: real) returns (idx: nat)
      requires queue != []
      ensures idx == ScanIndex(Entries(), start, 0)
    {
      idx := 0;
      while idx + 1 < |queue|
        invariant idx < |queue|
        invariant ScanIndex(Entries(), start, 0) == ScanIndex(Entries(), start, idx)
      {
        if start < queue[idx].start {
          return;
        }
        idx := idx + 1;
      }
    }

    lemma EntriesAround(before: seq<(nat, real)>, q: seq<UserData>, idx: nat, user: UserData)
      requires idx <= |q| && queue == q[..idx] + [user] + q[idx..]
      requires |before| == |q| && forall i :: 0 <= i < |q| ==> before[i] == (q[i].userId, q[i].start)
      ensures Entries() == before[..idx] + [(user.userId, user.start)] + before[idx..]
      ensures multiset(queue) == multiset(q) + multiset{user}
    {
      assert q == q[..idx] + q[idx..];
    }

    method Enqueue(user: UserData)
      modifies this`queue
      ensures Entries() == Inserted(old(Entries()), (user.userId, user.start))
      ensures multiset(queue) == multiset(old(queue)) + multiset{user}
      ensures forall u :: u in queue ==> u in old(queue) || u == user
    {
      ghost var before, q := Entries(), queue;
      if |queue| == 0 {
        queue := [user];
      } else {
        var idx := Scan(user.start);
        queue := queue[..idx] + [user] + queue[idx..];
        EntriesAround(before, q, idx, user);
      }
    }

    /** Prompt, number of tokens and start time of the round the user has just entered. */
    method PrepareRound(user: UserData, text: string, d: Draw, now: real)
      requires Valid() && 0 < user.currentRound < cfg.rounds
      modifies user
      ensures user.AsUser() == NextRound(cfg, old(user.AsUser()).(current := old(user.currentRound) - 1), text, d, now)
    {
      var r := user.currentRound;
      user.prompt := user.prompt + (text + d.prompt);
      user.returnTokens := if d.tokens <= 0 then cfg.meanReturn[r] else d.tokens;
      var interval := if d.interval <= 0.0 then cfg.meanInterval[r] else d.interval;
      user.start := now + interval;
    }

    /** A user whose answer has arrived: it leaves its round and, unless it was its last, enters the
        next one and is queued. */
    method Push(user: UserData, text: string, itl: nat, d: Draw, now: real)
      requires Valid() && user !in queue && user.currentRound < user.totalRounds <= cfg.rounds
      modifies this, user
      ensures Valid() && userId == old(userId) && userStats == old(userStats)
      ensures outputStats == Bump(old(outputStats), old(user.currentRound), itl + 1)
      ensures old(user.currentRound) + 1 >= user.totalRounds ==>
        && user.AsUser() == old(user.AsUser()).(current := old(user.currentRound) + 1)
        && queue == old(queue) && inputStats == old(inputStats)
      ensures old(user.currentRound) + 1 < user.totalRounds ==>
        && user.AsUser() == NextRound(cfg, old(user.AsUser()), text, d, now)
        && Entries() == Inserted(old(Entries()), (user.userId, user.start))
        && multiset(queue) == multiset(old(queue)) + multiset{user}
        && (forall u :: u in queue ==> u in old(queue) || u == user)
        && inputStats == Bump(old(inputStats), user.currentRound, d.promptLen)
    {
      outputStats := Bump(outputStats, user.currentRound, itl + 1);
      user.currentRound := user.currentRound + 1;
      if user.currentRound >= user.totalRounds {
        return;
      }
      inputStats := Bump(inputStats, user.currentRound, d.promptLen);
      PrepareRound(user, text, d, now);
      assert Entries() == old(Entries());
      Enqueue(user);
    }

    /** The head of the queue if its time has come, else a new user. */
    method Pop(d: Draw, now: real) returns (user: UserData)
      requires Valid()
      modifies this
      ensures Valid() && outputStats == old(outputStats)
      ensures Due(old(Entries()), now) ==>
        && user == old(queue)[0] && now > user.start && queue == old(queue)[1..]
        && userId == old(userId) && userStats == old(userStats) && inputStats == old(inputStats)
      ensures !Due(old(Entries()), now) ==>
        && fresh(user) && user.userId == old(userId) && user.AsUser() == NewUser(cfg, old(userId), d)
        && queue == old(queue) && userId == old(userId) + 1
        && inputStats == Bump(old(inputStats), 0, d.promptLen)
        && userStats == old(userStats)[user.totalRounds - 1 := old(userStats)[user.totalRounds - 1] + 1]
    {
      if |queue| != 0 && now > queue[0].start {
        user := queue[0];
        queue := queue[1..];
      } else {
        user := Gen(d);
      }
    }
  }
}
