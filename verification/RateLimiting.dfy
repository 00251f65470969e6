/**
 The chat sample's rate limiting: one RateLimiter shared by k clients, each of which lets a
 message through, posts it to the limiter, and then stays closed for as long as the answer
 says. Times are in seconds; the clock never goes back, answers are never lost and timers
 never early.
 */
module RateLimiting {
  import opened Sets

  const INTERVAL := 5.0
  const GRACE := 20.0

  function Max(x: real, y: real): real {
    if x < y then y else x
  }

  /** RateLimiter.fetch: the new nextAllowedTime, and the answer. */
  function Allow(nextAllowedTime: real, now: real, post: bool): real {
    Max(now, nextAllowedTime) + if post then INTERVAL else 0.0
  }

  function Cooldown(nextAllowedTime: real, now: real): real {
    Max(0.0, nextAllowedTime - now - GRACE)
  }

  class RateLimiter {
    var nextAllowedTime: real

    constructor ()
      ensures nextAllowedTime == 0.0
    {
      nextAllowedTime := 0.0;
    }

    method Fetch(post: bool, now: real) returns (cooldown: real)
      modifies this
      ensures nextAllowedTime == Allow(old(nextAllowedTime), now, post)
      ensures cooldown == Cooldown(nextAllowedTime, now)
    {
      nextAllowedTime := if now < nextAllowedTime then nextAllowedTime else now;
      if post {
        nextAllowedTime := nextAllowedTime + 5.0;
      }
      var left := nextAllowedTime - now - 20.0;
      cooldown := if 0.0 < left then left else 0.0;
    }
  }

  /** Where a client is between two messages it lets through; `value` remembers what its last post made of nextAllowedTime. */
  datatype Client =
    | Open                                     // inCooldown is false
    | Posting                                  // the post has not reached the limiter yet
    | Answered(cooldown: real, value: real)    // the answer has not reached the client yet
    | Sleeping(due: real, value: real)         // until the timer fires

  predicate InCooldown(c: Client) { !c.Open? }

  datatype State = State(now: real, next: real, clients: seq<Client>, accepted: nat, posted: nat)

  datatype Action =
    | Tick(to: real)
    | Message(c: nat)       // checkLimit() on client c
    | Post(c: nat)          // the limiter handles the post of client c
    | Read                  // a GET
    | Answer(c: nat)        // the answer reaches client c, which starts its timer
    | Timer(c: nat)

  predicate Enabled(s: State, a: Action) {
    match a
    case Tick(t) => s.now <= t
    case Message(c) => c < |s.clients|
    case Post(c) => c < |s.clients| && s.clients[c].Posting?
    case Read => true
    case Answer(c) => c < |s.clients| && s.clients[c].Answered?
    case Timer(c) => c < |s.clients| && s.clients[c].Sleeping? && s.clients[c].due <= s.now
  }

  function Apply(s: State, a: Action): State
    requires Enabled(s, a)
  {
    match a
    case Tick(t) => s.(now := t)
    case Message(c) =>
      if InCooldown(s.clients[c]) then s
      else s.(clients := s.clients[c := Posting], accepted := s.accepted + 1)
    case Post(c) =>
      var next := Allow(s.next, s.now, true);
      s.(next := next, posted := s.posted + 1, clients := s.clients[c := Answered(Cooldown(next, s.now), next)])
    case Read => s.(next := Allow(s.next, s.now, false))
    case Answer(c) =>
      s.(clients := s.clients[c := Sleeping(s.now + s.clients[c].cooldown, s.clients[c].value)])
    case Timer(c) => s.(clients := s.clients[c := Open])
  }

  predicate Initial(s: State, k: nat) {
    0.0 <= s.now && s.next == 0.0 && s.accepted == 0 && s.posted == 0 && |s.clients| == k &&
    forall c :: 0 <= c < k ==> s.clients[c].Open?
  }

  // ----- what holds in every reachable state

  /** Client c is closed because of a post that brought nextAllowedTime to x. */
  predicate Holds(c: Client, x: real) {
    (c.Answered? || c.Sleeping?) && c.value == x
  }

  predicate SomeHolds(s: State, x: real) {
    exists c :: 0 <= c < |s.clients| && Holds(s.clients[c], x)
  }

  /** No client opens before the time it was told, whatever the answer's way back took. */
  predicate ClosedLongEnough(c: Client, now: real) {
    match c
    case Answered(cooldown, value) => value - GRACE <= now + cooldown
    case Sleeping(due, value) => value - GRACE <= due
    case _ => true
  }

  /** j steps of INTERVAL below `next`. */
  function Level(next: real, j: nat): real {
    next - INTERVAL * (j as real)
  }

  /** Each step of INTERVAL from nextAllowedTime down to the end of the grace period is accounted for by a closed client. */
  ghost predicate Accounted(s: State) {
    forall j: nat :: BeyondGrace(s, j) ==> SomeHolds(s, Level(s.next, j))
  }

  predicate BeyondGrace(s: State, j: nat) {
    Level(s.next, j) > s.now + GRACE
  }

  function PostingCount(cs: seq<Client>): nat {
    if cs == [] then 0 else (if cs[0].Posting? then 1 else 0) + PostingCount(cs[1..])
  }

  ghost predicate Inv(s: State) {
    && (forall c :: 0 <= c < |s.clients| ==> ClosedLongEnough(s.clients[c], s.now))
    && Accounted(s)
    && s.accepted == s.posted + PostingCount(s.clients)
  }

  lemma InitialInv(s: State, k: nat)
    requires Initial(s, k)
    ensures Inv(s)
  {
    NoPosting(s.clients);
  }

  lemma {:induction false} NoPosting(cs: seq<Client>)
    requires forall c :: 0 <= c < |cs| ==> cs[c].Open?
    ensures PostingCount(cs) == 0
  {
    if cs != [] { NoPosting(cs[1..]); }
  }

  lemma {:induction false} PostingUpdate(cs: seq<Client>, c: nat, x: Client)
    requires c < |cs|
    ensures PostingCount(cs[c := x]) ==
            PostingCount(cs) - (if cs[c].Posting? then 1 else 0) + if x.Posting? then 1 else 0
  {
    if c > 0 {
      PostingUpdate(cs[1..], c - 1, x);
      assert cs[c := x][1..] == cs[1..][c - 1 := x];
    } else {
      assert cs[c := x][1..] == cs[1..];
    }
  }

  /** Replacing a client that holds nothing beyond the grace period loses nothing. */
  lemma AccountedUpdate(s: State, t: State, c: nat)
    requires Accounted(s) && c < |s.clients| == |t.clients| && t.next == s.next && t.now == s.now
    requires forall i :: 0 <= i < |s.clients| && i != c ==> t.clients[i] == s.clients[i]
    requires forall x: real :: Holds(s.clients[c], x) && x > s.now + GRACE ==> Holds(t.clients[c], x)
    ensures Accounted(t)
  {
    forall j: nat | BeyondGrace(t, j) ensures SomeHolds(t, Level(t.next, j)) {
      var x := Level(s.next, j);
      assert BeyondGrace(s, j);
      var i :| 0 <= i < |s.clients| && Holds(s.clients[i], x);
      assert Holds(t.clients[i], x);
    }
  }

  lemma AccountedPost(s: State, c: nat)
    requires Inv(s) && Enabled(s, Post(c))
    ensures Accounted(Apply(s, Post(c)))
  {
    var t := Apply(s, Post(c));
    forall j: nat | BeyondGrace(t, j) ensures SomeHolds(t, Level(t.next, j)) {
      if j == 0 {
        assert Holds(t.clients[c], t.next);
      } else {
        var x := Level(s.next, j - 1);
        assert Level(t.next, j) == x;
        assert BeyondGrace(s, j - 1);
        var i :| 0 <= i < |s.clients| && Holds(s.clients[i], x);
        assert Holds(t.clients[i], x);
      }
    }
  }

  lemma StepInv(s: State, a: Action)
    requires Inv(s) && Enabled(s, a)
    ensures Inv(Apply(s, a))
  {
    var t := Apply(s, a);
    match a
    case Tick(to) =>
      forall j: nat | BeyondGrace(t, j) ensures SomeHolds(t, Level(t.next, j)) {
        assert BeyondGrace(s, j);
      }
    case Message(c) =>
      if !InCooldown(s.clients[c]) {
        PostingUpdate(s.clients, c, Posting);
        AccountedUpdate(s, t, c);
      }
    case Post(c) =>
      PostingUpdate(s.clients, c, t.clients[c]);
      AccountedPost(s, c);
    case Read =>
      forall j: nat | BeyondGrace(t, j) ensures SomeHolds(t, Level(t.next, j)) {
        assert BeyondGrace(s, j);
      }
    case Answer(c) =>
      PostingUpdate(s.clients, c, t.clients[c]);
      AccountedUpdate(s, t, c);
    case Timer(c) =>
      PostingUpdate(s.clients, c, Open);
      AccountedUpdate(s, t, c);
  }

  // ----- how far ahead nextAllowedTime can get

  predicate HoldsOneOf(c: Client, next: real, m: nat) {
    exists j: nat :: j < m && Holds(c, Level(next, j))
  }

  /** The clients that account for the first m steps. */
  ghost function Holders(s: State, m: nat): set<int> {
    set c | 0 <= c < |s.clients| && HoldsOneOf(s.clients[c], s.next, m)
  }

  lemma {:induction false} HoldersCount(s: State, m: nat)
    requires forall j: nat :: j < m ==> SomeHolds(s, Level(s.next, j))
    ensures |Holders(s, m)| >= m
  {
    if m > 0 {
      HoldersCount(s, m - 1);
      var x := Level(s.next, m - 1);
      assert SomeHolds(s, x);
      var c :| 0 <= c < |s.clients| && Holds(s.clients[c], x);
      assert HoldsOneOf(s.clients[c], s.next, m);
      assert c !in Holders(s, m - 1);
      forall i | i in Holders(s, m - 1) ensures i in Holders(s, m) {
        var j: nat :| j < m - 1 && Holds(s.clients[i], Level(s.next, j));
      }
      assert Holders(s, m - 1) + {c} <= Holders(s, m);
      SubsetSize(Holders(s, m - 1) + {c}, Holders(s, m));
    }
  }

  ghost function NotPosting(cs: seq<Client>): set<int> {
    set c | 0 <= c < |cs| && !cs[c].Posting?
  }

  lemma {:induction false} NotPostingCount(cs: seq<Client>)
    ensures |NotPosting(cs)| == |cs| - PostingCount(cs)
  {
    if cs != [] {
      var n := |cs| - 1;
      NotPostingCount(cs[..n]);
      PostingLast(cs);
      assert NotPosting(cs) == NotPosting(cs[..n]) + if cs[n].Posting? then {} else {n};
    } else {
      assert NotPosting(cs) == {};
    }
  }

  lemma {:induction false} PostingLast(cs: seq<Client>)
    requires cs != []
    ensures PostingCount(cs) == PostingCount(cs[..|cs| - 1]) + if cs[|cs| - 1].Posting? then 1 else 0
  {
    if |cs| > 1 {
      PostingLast(cs[1..]);
      assert cs[1..][..|cs| - 2] == cs[..|cs| - 1][1..];
    }
  }

  /**
   nextAllowedTime is never more than the grace period and one interval per client ahead of
   the clock; a client whose post is still on its way does not count.
   */
  lemma NeverFarAhead(s: State)
    requires Inv(s)
    ensures PostingCount(s.clients) <= |s.clients|
    ensures s.next <= s.now + GRACE + INTERVAL * ((|s.clients| - PostingCount(s.clients)) as real)
  {
    NotPostingCount(s.clients);
    var m := |s.clients| - PostingCount(s.clients);
    if s.next > s.now + GRACE + INTERVAL * (m as real) {
      forall j: nat | j < m + 1 ensures SomeHolds(s, Level(s.next, j)) {
        assert j as real <= m as real;
        assert BeyondGrace(s, j);
      }
      HoldersCount(s, m + 1);
      SubsetSize(Holders(s, m + 1), NotPosting(s.clients));
    }
  }

  // ----- whole runs

  ghost predicate CanStep(s: State, t: State) {
    exists a :: Enabled(s, a) && t == Apply(s, a)
  }

  ghost predicate IsRun(run: seq<State>, k: nat) {
    && |run| > 0 && Initial(run[0], k)
    && forall i :: 0 <= i < |run| - 1 ==> CanStep(run[i], run[i + 1])
  }

  lemma {:induction false} RunInv(run: seq<State>, k: nat, i: nat)
    requires IsRun(run, k) && i < |run|
    ensures Inv(run[i]) && |run[i].clients| == k
  {
    if i == 0 {
      InitialInv(run[0], k);
    } else {
      RunInv(run, k, i - 1);
      assert CanStep(run[i - 1], run[i - 1 + 1]);
      var a :| Enabled(run[i - 1], a) && run[i] == Apply(run[i - 1], a);
      StepInv(run[i - 1], a);
    }
  }

  /** From s to t the clock goes on, and every post moves nextAllowedTime at least one interval on. */
  predicate Moves(s: State, t: State) {
    && s.now <= t.now && s.posted <= t.posted && |t.clients| == |s.clients|
    && (s.posted < t.posted ==> t.next >= s.now + INTERVAL * ((t.posted - s.posted) as real))
  }

  lemma MovesOn(s: State, t: State, a: Action)
    requires Moves(s, t) && Enabled(t, a)
    ensures Moves(s, Apply(t, a))
  {}

  lemma {:induction false} PostsMove(run: seq<State>, k: nat, i: nat, j: nat)
    requires IsRun(run, k) && i <= j < |run|
    ensures Moves(run[i], run[j])
    decreases j - i
  {
    if i < j {
      PostsMove(run, k, i, j - 1);
      assert CanStep(run[j - 1], run[j - 1 + 1]);
      var a :| Enabled(run[j - 1], a) && run[j] == Apply(run[j - 1], a);
      MovesOn(run[i], run[j - 1], a);
    }
  }

  /** What a stretch from s to t lets through. */
  lemma StretchBound(s: State, t: State)
    requires Inv(s) && Inv(t) && Moves(s, t)
    ensures INTERVAL * ((t.accepted - s.accepted) as real) <= (t.now - s.now) + GRACE + INTERVAL * (|t.clients| as real)
  {
    NeverFarAhead(t);
    var k, posts, waiting := |t.clients|, t.posted - s.posted, PostingCount(t.clients);
    assert t.accepted - s.accepted <= posts + waiting;
    assert (k - waiting) as real == k as real - waiting as real;
    assert (posts + waiting) as real == posts as real + waiting as real;
  }

  /** In every run, right after a post the limiter is at most 20 + 5k seconds ahead of the clock. */
  lemma AheadBound(run: seq<State>, k: nat, i: nat)
    requires IsRun(run, k) && i < |run|
    ensures run[i].next - run[i].now <= GRACE + INTERVAL * (k as real)
  {
    RunInv(run, k, i);
    NeverFarAhead(run[i]);
  }

  /** In every stretch of every run, at most T/5 + 4 + k messages get through, T being how long it lasts. */
  lemma WindowBound(run: seq<State>, k: nat, i: nat, j: nat)
    requires IsRun(run, k) && i <= j < |run|
    ensures INTERVAL * ((run[j].accepted - run[i].accepted) as real)
            <= (run[j].now - run[i].now) + GRACE + INTERVAL * (k as real)
  {
    RunInv(run, k, i);
    RunInv(run, k, j);
    PostsMove(run, k, i, j);
    StretchBound(run[i], run[j]);
  }

  // ----- the limiter and its clients at work

  function Tried(s: State, a: Action): State {
    if Enabled(s, a) then Apply(s, a) else s
  }

  /** A series of events, those that cannot happen left out. */
  function TriedAll(s: State, actions: seq<Action>): State
    decreases |actions|
  {
    if actions == [] then s else TriedAll(Tried(s, actions[0]), actions[1..])
  }

  lemma {:induction false} TriedAllInv(s: State, t: State, actions: seq<Action>)
    requires Inv(s) && Inv(t) && Moves(s, t)
    ensures Inv(TriedAll(t, actions)) && Moves(s, TriedAll(t, actions))
    decreases |actions|
  {
    if actions != [] {
      if Enabled(t, actions[0]) {
        StepInv(t, actions[0]);
        MovesOn(s, t, actions[0]);
      }
      TriedAllInv(s, Tried(t, actions[0]), actions[1..]);
    }
  }

  // ----- who is not limited

  /** In any stretch, nextAllowedTime moves by 5 seconds for each post, from where it was or from the clock. */
  lemma {:induction false} NextMoves(s: State, actions: seq<Action>)
    ensures var t := TriedAll(s, actions);
            && s.now <= t.now && s.posted <= t.posted
            && s.next + 5.0 * ((t.posted - s.posted) as real) <= t.next
            && t.next <= Max(s.next, t.now) + 5.0 * ((t.posted - s.posted) as real)
    decreases |actions|
  {
    if actions != [] {
      var m := Tried(s, actions[0]);
      NextMoves(m, actions[1..]);
      var t := TriedAll(m, actions[1..]);
      assert ((t.posted - s.posted) as real) == ((t.posted - m.posted) as real) + ((m.posted - s.posted) as real);
    }
  }

  /**
   What a post and its answer make of a client: it stays closed until the allowed time is no
   more than 20 seconds away; at once, if it is not.
   */
  lemma ClosedUntil(s: State, c: nat)
    requires Enabled(s, Post(c))
    ensures var t := Apply(s, Post(c));
            && t.next == (if s.now < s.next then s.next else s.now) + 5.0 && t.posted == s.posted + 1
            && var u := Apply(t, Answer(c));
               u.clients[c].Sleeping? && u.clients[c].due == if t.next - 20.0 > s.now then t.next - 20.0 else s.now
  {}

  /** After no more than four posts to an idle limiter, wherever they come from and whenever, nobody has to wait. */
  lemma BurstIsFree(s: State, actions: seq<Action>)
    requires s.next <= s.now && TriedAll(s, actions).posted - s.posted <= 4
    ensures var t := TriedAll(s, actions); t.next <= t.now + 20.0 && Cooldown(t.next, t.now) == 0.0
  {
    NextMoves(s, actions);
  }

  /** Posts at one time to an idle limiter: the first four are free, and each further one costs five seconds more. */
  method Burst(limiter: RateLimiter, now: real, n: nat) returns (answers: seq<real>)
    requires limiter.nextAllowedTime <= now
    modifies limiter
    ensures |answers| == n
    ensures forall i :: 0 <= i < n ==> answers[i] == if i < 4 then 0.0 else 5.0 * ((i - 3) as real)
  {
    answers := [];
    while |answers| < n
      invariant |answers| <= n
      invariant if answers == [] then limiter.nextAllowedTime <= now
                else limiter.nextAllowedTime == now + 5.0 * (|answers| as real)
      invariant forall i :: 0 <= i < |answers| ==> answers[i] == if i < 4 then 0.0 else 5.0 * ((i - 3) as real)
    {
      var cooldown := limiter.Fetch(true, now);
      answers := answers + [cooldown];
    }
  }

  class Service {
    const limiter: RateLimiter
    var now: real
    var clients: seq<Client>
    ghost var accepted: nat
    ghost var posted: nat

    ghost function Now(): State
      reads this, limiter
    {
      State(now, limiter.nextAllowedTime, clients, accepted, posted)
    }

    ghost predicate Valid()
      reads this, limiter
    {
      Inv(Now())
    }

    constructor (start: real, k: nat)
      requires 0.0 <= start
      ensures Valid() && fresh(limiter) && |clients| == k && Initial(Now(), k)
    {
      limiter := new RateLimiter();
      now, clients := start, seq(k, _ => Open);
      accepted, posted := 0, 0;
      new;
      InitialInv(Now(), k);
    }

    /** checkLimit() of client c. */
    method CheckLimit(c: nat) returns (through: bool)
      requires c < |clients|
      modifies this`clients, this`accepted
      ensures through <==> old(clients[c].Open?)
      ensures Now() == Apply(old(Now()), Message(c))
    {
      if !clients[c].Open? { return false; }
      clients := clients[c := Posting];
      accepted := accepted + 1;
      through := true;
    }

    /** One event, if it can happen. */
    method Step(a: Action)
      modifies this, limiter
      ensures Now() == Tried(old(Now()), a)
    {
      if !Enabled(State(now, 0.0, clients, 0, 0), a) { return; }
      match a
      case Tick(t) => now := t;
      case Message(c) => var through := CheckLimit(c);
      case Post(c) =>
        var cooldown := limiter.Fetch(true, now);
        clients := clients[c := Answered(cooldown, limiter.nextAllowedTime)];
        posted := posted + 1;
      case Read => var cooldown := limiter.Fetch(false, now);
      case Answer(c) => clients := clients[c := Sleeping(now + clients[c].cooldown, clients[c].value)];
      case Timer(c) => clients := clients[c := Open];
    }

    method StepAll(actions: seq<Action>)
      modifies this, limiter
      ensures Now() == TriedAll(old(Now()), actions)
      decreases |actions|
    {
      if actions != [] {
        Step(actions[0]);
        StepAll(actions[1..]);
      }
    }

    /** Whatever happens in whatever order, at most T/5 + 4 + k messages get through in a time T. */
    method Run(actions: seq<Action>)
      requires Valid()
      modifies this, limiter
      ensures Valid() && Now() == TriedAll(old(Now()), actions)
      ensures old(now) <= now && |clients| == |old(clients)|
      ensures limiter.nextAllowedTime <= now + GRACE + INTERVAL * (|clients| as real)
      ensures INTERVAL * ((accepted - old(accepted)) as real) <= (now - old(now)) + GRACE + INTERVAL * (|clients| as real)
    {
      ghost var start := Now();
      TriedAllInv(start, start, actions);
      StepAll(actions);
      StretchBound(start, Now());
      NotPostingCount(clients);
      NeverFarAhead(Now());
    }
  }
}
