/** The rolling-restart lock over a whole cluster: on every host an agent
    (`systemd_restart.go`) and a lifecycle script (`lifecycle-update`, then after the
    reboot `lifecycle-ready`) share one semaphore of capacity one. Every command may fail,
    before or after it took effect; processes and hosts may die at any moment. */
module Locksmith {
  import opened Prelude

  datatype Actor = Agent(host: nat) | Lifecycle(host: nat)

  /** Where an actor is. `Down` and `Ready` belong to the lifecycle of a host that went
      down and to its script after the boot; `held` tells that it went down inside its
      own section. */
  datatype Pc = Idle | Opening | Locking(tried: nat) | Active | Releasing | Down(held: bool) | Ready(held: bool)

  /** The names under which the actors of each host take the lock. */
  datatype Names = Names(agents: seq<string>, lifecycles: seq<string>)

  datatype State = State(holder: Option<string>, agents: seq<Pc>, lifecycles: seq<Pc>)

  /** `Lost`: the lock was taken but the caller saw an error. */
  datatype Answer = Granted | Refused | Lost

  datatype Event =
    | Start(a: Actor)
    | Open(a: Actor, done: bool)
    | TryLock(a: Actor, answer: Answer)
    | Finish(host: nat)
    | Release(host: nat, done: bool)
    | Crash(a: Actor)
    | Reboot(host: nat)
    | PowerLoss(host: nat)
    | Boot(host: nat)
    | ReadyEnds(host: nat, done: bool)

  /** An agent tries the lock ten times, a lifecycle script once. */
  function MaxTries(a: Actor): nat {
    if a.Agent? then 10 else 1
  }

  predicate Sized(names: Names, s: State) {
    |names.agents| == |names.lifecycles| == |s.agents| == |s.lifecycles|
  }

  predicate IsActor(names: Names, a: Actor) {
    a.host < |names.agents| && a.host < |names.lifecycles|
  }

  function NameOf(names: Names, a: Actor): string
    requires a.host < |names.agents| && a.host < |names.lifecycles|
  {
    if a.Agent? then names.agents[a.host] else names.lifecycles[a.host]
  }

  function PcOf(s: State, a: Actor): Pc
    requires a.host < |s.agents| && a.host < |s.lifecycles|
  {
    if a.Agent? then s.agents[a.host] else s.lifecycles[a.host]
  }

  function With(s: State, a: Actor, pc: Pc): State
    requires a.host < |s.agents| && a.host < |s.lifecycles|
  {
    if a.Agent? then s.(agents := s.agents[a.host := pc]) else s.(lifecycles := s.lifecycles[a.host := pc])
  }

  /** `unlock` removes that name and no other. */
  function Unlock(holder: Option<string>, name: string): Option<string> {
    if holder == Some(name) then None else holder
  }

  /** The actor went into its section, or went down in it, and has not left. */
  predicate Inside(pc: Pc) {
    pc.Active? || pc.Releasing? || (pc.Down? && pc.held) || (pc.Ready? && pc.held)
  }

  /** What may happen next. */
  predicate Enabled(names: Names, s: State, ev: Event)
    requires Sized(names, s)
  {
    match ev
    case Start(a) => IsActor(names, a) && PcOf(s, a) == Idle && !s.lifecycles[a.host].Down?
    case Open(a, _) => IsActor(names, a) && PcOf(s, a) == Opening
    case TryLock(a, answer) => IsActor(names, a) && PcOf(s, a).Locking? && (answer != Refused ==> s.holder == None)
    case Finish(h) => IsActor(names, Agent(h)) && s.agents[h] == Active
    case Release(h, _) => IsActor(names, Agent(h)) && s.agents[h] == Releasing
    case Crash(a) => IsActor(names, a) && !PcOf(s, a).Down? && !PcOf(s, a).Ready?
    case Reboot(h) => IsActor(names, Lifecycle(h)) && s.lifecycles[h] == Active
    case PowerLoss(h) => IsActor(names, Lifecycle(h))
    case Boot(h) => IsActor(names, Lifecycle(h)) && s.lifecycles[h].Down?
    case ReadyEnds(h, _) => IsActor(names, Lifecycle(h)) && s.lifecycles[h].Ready?
  }

  /** What it leads to. */
  function After(names: Names, s: State, ev: Event): State
    requires Sized(names, s) && Enabled(names, s, ev)
  {
    match ev
    case Start(a) => With(s, a, Opening)
    case Open(a, done) =>
      With(s, a, Locking(0)).(holder := if done then Unlock(s.holder, NameOf(names, a)) else s.holder)
    case TryLock(a, answer) =>
      var k := PcOf(s, a).tried + 1;
      With(s, a, if answer == Granted then Active else if k < MaxTries(a) then Locking(k) else Idle)
        .(holder := if answer == Refused then s.holder else Some(NameOf(names, a)))
    case Finish(h) => With(s, Agent(h), Releasing)
    case Release(h, done) =>
      With(s, Agent(h), Idle).(holder := if done then Unlock(s.holder, NameOf(names, Agent(h))) else s.holder)
    case Crash(a) => With(s, a, Idle)
    case Reboot(h) => With(With(s, Lifecycle(h), Down(true)), Agent(h), Idle)
    case PowerLoss(h) => With(With(s, Lifecycle(h), Down(Inside(s.lifecycles[h]))), Agent(h), Idle)
    case Boot(h) => With(s, Lifecycle(h), Ready(s.lifecycles[h].held))
    case ReadyEnds(h, done) =>
      With(s, Lifecycle(h), Idle).(holder := if done then Unlock(s.holder, NameOf(names, Lifecycle(h))) else s.holder)
  }

  ghost predicate Step(names: Names, s: State, ev: Event, t: State)
    requires Sized(names, s)
  {
    Enabled(names, s, ev) && t == After(names, s, ev)
  }

  /** All idle, nobody holding. */
  ghost predicate Initial(names: Names, s: State) {
    && Sized(names, s) && s.holder == None
    && (forall h :: 0 <= h < |s.agents| ==> s.agents[h] == Idle)
    && (forall h :: 0 <= h < |s.lifecycles| ==> s.lifecycles[h] == Idle)
  }

  ghost predicate Run(names: Names, ss: seq<State>, evs: seq<Event>) {
    && |ss| == |evs| + 1
    && forall i :: 0 <= i < |evs| ==> Sized(names, ss[i]) && Step(names, ss[i], evs[i], ss[i + 1])
  }

  // ---------- safety ----------

  /** No two actors use one name. */
  ghost predicate Apart(names: Names) {
    forall a, b :: IsActor(names, a) && IsActor(names, b) && a != b ==> NameOf(names, a) != NameOf(names, b)
  }

  /** Whoever is inside holds the lock under its own name. */
  ghost predicate Held(names: Names, s: State) {
    Sized(names, s) && forall a :: IsActor(names, a) && Inside(PcOf(s, a)) ==> s.holder == Some(NameOf(names, a))
  }

  ghost predicate Exclusive(names: Names, s: State) {
    Sized(names, s) &&
    forall a, b :: IsActor(names, a) && IsActor(names, b) && a != b ==> !(Inside(PcOf(s, a)) && Inside(PcOf(s, b)))
  }

  /** The actor an event belongs to, and what it leaves to everyone else. */
  function ActorOf(ev: Event): Actor {
    match ev
    case Start(a) => a
    case Open(a, _) => a
    case TryLock(a, _) => a
    case Finish(h) => Agent(h)
    case Release(h, _) => Agent(h)
    case Crash(a) => a
    case Reboot(h) => Lifecycle(h)
    case PowerLoss(h) => Lifecycle(h)
    case Boot(h) => Lifecycle(h)
    case ReadyEnds(h, _) => Lifecycle(h)
  }

  lemma StepKeepsHeld(names: Names, s: State, ev: Event, t: State)
    requires Apart(names) && Held(names, s) && Step(names, s, ev, t)
    ensures Held(names, t)
  {
    forall b | IsActor(names, b) && Inside(PcOf(t, b)) ensures t.holder == Some(NameOf(names, b)) {
      var a := ActorOf(ev);
      if b != a {
        OthersMove(names, s, ev, t, b);
      }
    }
  }

  /** Another actor's step brings nobody inside, and takes the lock from nobody inside. */
  lemma OthersMove(names: Names, s: State, ev: Event, t: State, b: Actor)
    requires Apart(names) && Held(names, s) && Step(names, s, ev, t) && IsActor(names, b) && b != ActorOf(ev)
    ensures Sized(names, t) && (Inside(PcOf(t, b)) ==> Inside(PcOf(s, b)) && t.holder == s.holder)
  {}

  lemma HeldIsExclusive(names: Names, s: State)
    requires Apart(names) && Held(names, s)
    ensures Exclusive(names, s)
  {}

  lemma {:induction false} RunKeepsHeld(names: Names, ss: seq<State>, evs: seq<Event>, k: nat)
    requires Apart(names) && Run(names, ss, evs) && Held(names, ss[0]) && k < |ss|
    ensures Held(names, ss[k])
  {
    if k > 0 {
      RunKeepsHeld(names, ss, evs, k - 1);
      assert Step(names, ss[k - 1], evs[k - 1], ss[k]);
      StepKeepsHeld(names, ss[k - 1], evs[k - 1], ss[k]);
    }
  }

  /** In every state of every run at most one actor of the whole cluster is inside, and it
      holds the lock under its own name. */
  lemma EveryRunExclusive(names: Names, ss: seq<State>, evs: seq<Event>, k: nat)
    requires Apart(names) && Run(names, ss, evs) && Initial(names, ss[0]) && k < |ss|
    ensures Held(names, ss[k]) && Exclusive(names, ss[k])
  {
    RunKeepsHeld(names, ss, evs, k);
    HeldIsExclusive(names, ss[k]);
  }

  // ---------- hosts that are down ----------

  ghost predicate DownRests(names: Names, s: State) {
    Sized(names, s) && forall h :: 0 <= h < |s.lifecycles| && s.lifecycles[h].Down? ==> s.agents[h] == Idle
  }

  lemma StepKeepsRest(names: Names, s: State, ev: Event, t: State)
    requires DownRests(names, s) && Step(names, s, ev, t)
    ensures DownRests(names, t)
  {}

  /** In every run nothing is at work on a host that is down: a reboot or a loss of power
      ends the agent's restart as well, and none begins before the boot. */
  lemma {:induction false} DownHostsRest(names: Names, ss: seq<State>, evs: seq<Event>, k: nat)
    requires Run(names, ss, evs) && Initial(names, ss[0]) && k < |ss|
    ensures DownRests(names, ss[k])
  {
    hide Step, DownRests;
    if k > 0 {
      DownHostsRest(names, ss, evs, k - 1);
      assert Step(names, ss[k - 1], evs[k - 1], ss[k - 1 + 1]);
      StepKeepsRest(names, ss[k - 1], evs[k - 1], ss[k]);
    } else {
      InitialRests(names, ss[0]);
    }
  }

  lemma InitialRests(names: Names, s: State)
    requires Initial(names, s)
    ensures DownRests(names, s)
  {}

  // ---------- a failed restart keeps the lock ----------

  /** The agent gives its lock up only by an opening or a closing unlock. */
  predicate GivesUp(ev: Event, h: nat) {
    (ev.Open? && ev.a == Agent(h)) || (ev.Release? && ev.host == h)
  }

  /** While agent h holds the lock, whatever became of its restart, nobody else gets in
      before that agent runs again. */
  lemma {:induction false} HeldUntilItRuns(names: Names, ss: seq<State>, evs: seq<Event>, h: nat, k: nat)
    requires Apart(names) && Run(names, ss, evs) && Held(names, ss[0]) && k < |ss| && IsActor(names, Agent(h))
    requires ss[0].holder == Some(NameOf(names, Agent(h)))
    requires forall i :: 0 <= i < k ==> !GivesUp(evs[i], h)
    ensures ss[k].holder == Some(NameOf(names, Agent(h)))
    ensures Sized(names, ss[k]) && forall b :: IsActor(names, b) && b != Agent(h) ==> !Inside(PcOf(ss[k], b))
  {
    RunKeepsHeld(names, ss, evs, k);
    if k > 0 {
      HeldUntilItRuns(names, ss, evs, h, k - 1);
      assert Step(names, ss[k - 1], evs[k - 1], ss[k]) && !GivesUp(evs[k - 1], h);
    }
  }

  // ---------- the lock comes back ----------

  /** After the boot the script gives back the lock that its host went down with. */
  lemma ReadyReleases(names: Names, s: State, h: nat, t: State)
    requires Sized(names, s) && Step(names, s, ReadyEnds(h, true), t) && s.holder == Some(names.lifecycles[h])
    ensures t.holder == None && t.lifecycles[h] == Idle
  {}

  /** An agent that finished gives its lock back. */
  lemma ReleaseFrees(names: Names, s: State, h: nat, t: State)
    requires Sized(names, s) && Step(names, s, Release(h, true), t) && s.holder == Some(names.agents[h])
    ensures t.holder == None && t.agents[h] == Idle
  {}

  /** An untroubled turn of an actor: in, its work (a reboot for a lifecycle), and out. */
  function Turn(a: Actor): seq<Event> {
    EnterEvents(a) + (if a.Agent? then [Finish(a.host), Release(a.host, true)] else [Reboot(a.host), Boot(a.host), ReadyEnds(a.host, true)])
  }

  /** At that event the actor, holding the lock, does its work. */
  ghost predicate WorksAt(names: Names, ss: seq<State>, evs: seq<Event>, a: Actor, i: nat) {
    && IsActor(names, a) && i < |evs| && i < |ss| && Sized(names, ss[i])
    && Inside(PcOf(ss[i], a)) && ss[i].holder == Some(NameOf(names, a))
    && evs[i] == if a.Agent? then Finish(a.host) else Reboot(a.host)
  }

  lemma OneTurn(names: Names, s: State, a: Actor) returns (ss: seq<State>)
    requires Initial(names, s) && IsActor(names, a)
    ensures Run(names, ss, Turn(a)) && ss[0] == s && ss[|ss| - 1] == s && WorksAt(names, ss, Turn(a), a, 3)
  {
    Entering(names, s, a);
    var first := EnterStates(names, s, a);
    var mid := first[3];
    var rest: seq<State>, evs: seq<Event>;
    if a.Agent? {
      rest, evs := [mid, With(mid, a, Releasing), s], [Finish(a.host), Release(a.host, true)];
      assert Step(names, rest[0], evs[0], rest[1]);
      LeavesAsBefore(names, s, a, Releasing);
      assert Step(names, rest[1], evs[1], rest[2]);
    } else {
      rest, evs := [mid, With(mid, a, Down(true)), With(mid, a, Ready(true)), s], [Reboot(a.host), Boot(a.host), ReadyEnds(a.host, true)];
      assert With(With(mid, a, Down(true)), Agent(a.host), Idle) == With(mid, a, Down(true));
      assert Step(names, rest[0], evs[0], rest[1]);
      assert Step(names, rest[1], evs[1], rest[2]);
      LeavesAsBefore(names, s, a, Ready(true));
      assert Step(names, rest[2], evs[2], rest[3]);
    }
    RunsJoin(names, first, EnterEvents(a), rest, evs);
    ss := first + rest[1..];
    assert Turn(a) == EnterEvents(a) + evs;
  }

  /** Back to idle without the lock, everything is as before the turn. */
  lemma LeavesAsBefore(names: Names, s: State, a: Actor, pc: Pc)
    requires Initial(names, s) && IsActor(names, a)
    ensures With(With(With(s, a, Active).(holder := Some(NameOf(names, a))), a, pc), a, Idle).(holder := None) == s
  {}

  ghost predicate HasTurn(names: Names, ss: seq<State>, evs: seq<Event>, a: Actor) {
    exists i: nat :: WorksAt(names, ss, evs, a, i)
  }

  lemma TurnsKept(names: Names, ss: seq<State>, evs: seq<Event>, tt: seq<State>, fvs: seq<Event>, a: Actor)
    requires |ss| == |evs| + 1 && |tt| == |fvs| + 1 && ss[|ss| - 1] == tt[0]
    ensures HasTurn(names, ss, evs, a) || HasTurn(names, tt, fvs, a) ==> HasTurn(names, ss + tt[1..], evs + fvs, a)
  {
    var all, both := ss + tt[1..], evs + fvs;
    if i: nat :| WorksAt(names, ss, evs, a, i) {
      assert WorksAt(names, all, both, a, i);
    } else if i: nat :| WorksAt(names, tt, fvs, a, i) {
      assert all[|evs| + i] == tt[i] && both[|evs| + i] == fvs[i];
      assert WorksAt(names, all, both, a, |evs| + i);
    }
  }

  /** A rolling update completes: for any list of actors of the cluster there is a run in
      which each in turn gets the lock, works (reboots, if it is a lifecycle) and comes back,
      and which ends as it began, with all idle and nobody holding. */
  lemma {:induction false} RollingUpdate(names: Names, s: State, actors: seq<Actor>) returns (ss: seq<State>, evs: seq<Event>)
    requires Initial(names, s) && forall a :: a in actors ==> IsActor(names, a)
    ensures Run(names, ss, evs) && ss[0] == s && ss[|ss| - 1] == s
    ensures forall a :: a in actors ==> HasTurn(names, ss, evs, a)
  {
    hide Step, Initial, HasTurn, WorksAt;
    if actors == [] {
      ss, evs := [s], [];
    } else {
      var n := |actors| - 1;
      var before, done := RollingUpdate(names, s, actors[..n]);
      var turn := OneTurn(names, s, actors[n]);
      assert HasTurn(names, turn, Turn(actors[n]), actors[n]) by { TurnSeen(names, turn, Turn(actors[n]), actors[n]); }
      RunsJoin(names, before, done, turn, Turn(actors[n]));
      ss, evs := before + turn[1..], done + Turn(actors[n]);
      forall a | a in actors ensures HasTurn(names, ss, evs, a) {
        assert a in actors[..n] || a == actors[n];
        TurnsKept(names, before, done, turn, Turn(actors[n]), a);
      }
    }
  }

  lemma TurnSeen(names: Names, ss: seq<State>, evs: seq<Event>, a: Actor)
    requires WorksAt(names, ss, evs, a, 3)
    ensures HasTurn(names, ss, evs, a)
  {}

  /** What can leave the lock with an actor that is no longer inside: a grant whose answer
      was lost, a crash, an unlock that did not take effect, or for an agent the end of its host. */
  predicate Leaves(ev: Event, a: Actor) {
    || ev == TryLock(a, Lost) || ev == Crash(a)
    || (a.Lifecycle? && ev == ReadyEnds(a.host, false))
    || (a.Agent? && (ev == Release(a.host, false) || ev == Reboot(a.host) || ev == PowerLoss(a.host)))
  }

  /** Since that event the lock has been held under the actor's name. */
  ghost predicate LeftAt(names: Names, ss: seq<State>, evs: seq<Event>, a: Actor, j: nat, k: nat) {
    && IsActor(names, a) && j < k && j < |evs| && k < |ss| && Leaves(evs[j], a)
    && forall x :: j < x <= k ==> ss[x].holder == Some(NameOf(names, a))
  }

  lemma HolderStep(names: Names, s: State, ev: Event, t: State, a: Actor)
    requires Apart(names) && Sized(names, s) && Step(names, s, ev, t) && IsActor(names, a) && t.holder == Some(NameOf(names, a))
    ensures Sized(names, t)
    ensures s.holder != Some(NameOf(names, a)) ==> Inside(PcOf(t, a)) || Leaves(ev, a)
    ensures s.holder == Some(NameOf(names, a)) && Inside(PcOf(s, a)) ==> Inside(PcOf(t, a)) || Leaves(ev, a)
  {
    var b := ActorOf(ev);
    assert IsActor(names, b) ==> b == a || NameOf(names, b) != NameOf(names, a);
    hide Apart;
  }

  lemma RunLast(names: Names, ss: seq<State>, evs: seq<Event>, k: nat)
    requires Run(names, ss, evs) && 0 < k < |ss|
    ensures |ss| == |evs| + 1 && Sized(names, ss[k - 1]) && Step(names, ss[k - 1], evs[k - 1], ss[k])
  {}

  /** In every run: if the lock is held under an actor's name, the actor is inside, or one of
      those mishaps left it there and it has been held ever since. */
  lemma {:induction false} HeldWithReason(names: Names, ss: seq<State>, evs: seq<Event>, a: Actor, k: nat)
    requires Apart(names) && Run(names, ss, evs) && Initial(names, ss[0]) && k < |ss| && IsActor(names, a)
    requires ss[k].holder == Some(NameOf(names, a))
    ensures Sized(names, ss[k])
    ensures Inside(PcOf(ss[k], a)) || exists j: nat :: LeftAt(names, ss, evs, a, j, k)
  {
    hide Step, Apart, Run;
    if k > 0 {
      var m := k - 1;
      RunLast(names, ss, evs, k);
      HolderStep(names, ss[m], evs[m], ss[k], a);
      if Leaves(evs[k - 1], a) {
        assert LeftAt(names, ss, evs, a, k - 1, k);
      } else if ss[k - 1].holder == Some(NameOf(names, a)) {
        HeldWithReason(names, ss, evs, a, m);
        if j: nat :| LeftAt(names, ss, evs, a, j, m) {
          assert LeftAt(names, ss, evs, a, j, k);
        }
      }
    }
  }

  /** Without such a mishap an idle actor never holds the lock. */
  lemma IdleHoldsNothing(names: Names, ss: seq<State>, evs: seq<Event>, a: Actor, k: nat)
    requires Apart(names) && Run(names, ss, evs) && Initial(names, ss[0]) && k < |ss| && IsActor(names, a)
    requires forall j :: 0 <= j < k ==> !Leaves(evs[j], a)
    ensures Sized(names, ss[k]) && (PcOf(ss[k], a) == Idle ==> ss[k].holder != Some(NameOf(names, a)))
  {
    hide Step, Apart, Run, Initial;
    RunSized(names, ss, evs, k);
    if ss[k].holder == Some(NameOf(names, a)) {
      HeldWithReason(names, ss, evs, a, k);
    }
  }

  lemma {:induction false} RunSized(names: Names, ss: seq<State>, evs: seq<Event>, k: nat)
    requires Run(names, ss, evs) && Initial(names, ss[0]) && k < |ss|
    ensures |ss| == |evs| + 1 && Sized(names, ss[k])
  {
    if k > 0 {
      assert Step(names, ss[k - 1], evs[k - 1], ss[k - 1 + 1]);
    }
  }

  // ---------- the names decide ----------

  /** Entering the section: start, an opening unlock that works, a granted lock. */
  function EnterEvents(a: Actor): seq<Event> {
    [Start(a), Open(a, true), TryLock(a, Granted)]
  }

  function EnterStates(names: Names, s: State, a: Actor): seq<State>
    requires IsActor(names, a) && Sized(names, s)
  {
    var freed := Unlock(s.holder, NameOf(names, a));
    [s, With(s, a, Opening), With(s, a, Locking(0)).(holder := freed), With(s, a, Active).(holder := Some(NameOf(names, a)))]
  }

  lemma Entering(names: Names, s: State, a: Actor)
    requires IsActor(names, a) && Sized(names, s) && PcOf(s, a) == Idle && !s.lifecycles[a.host].Down?
    requires s.holder == None || s.holder == Some(NameOf(names, a))
    ensures Run(names, EnterStates(names, s, a), EnterEvents(a))
  {
    var ss := EnterStates(names, s, a);
    assert Step(names, ss[0], Start(a), ss[1]);
    assert Step(names, ss[1], Open(a, true), ss[2]);
    assert Step(names, ss[2], TryLock(a, Granted), ss[3]);
  }

  lemma RunsJoin(names: Names, ss: seq<State>, evs: seq<Event>, tt: seq<State>, fvs: seq<Event>)
    requires Run(names, ss, evs) && Run(names, tt, fvs) && ss[|ss| - 1] == tt[0]
    ensures Run(names, ss + tt[1..], evs + fvs)
  {
    var all := ss + tt[1..];
    forall i | 0 <= i < |evs| + |fvs| ensures Sized(names, all[i]) && Step(names, all[i], (evs + fvs)[i], all[i + 1]) {
      if i >= |evs| {
        assert all[i] == tt[i - |evs|] && all[i + 1] == tt[i - |evs| + 1];
      }
    }
    hide Step;
  }

  /** Two actors of one name: the opening unlock of the second frees the lock of the first. */
  lemma Collision(names: Names, s: State, a: Actor, b: Actor) returns (ss: seq<State>, evs: seq<Event>)
    requires Initial(names, s) && IsActor(names, a) && IsActor(names, b) && a != b && NameOf(names, a) == NameOf(names, b)
    ensures Run(names, ss, evs) && ss[0] == s && !Exclusive(names, ss[|ss| - 1])
  {
    Entering(names, s, a);
    var first := EnterStates(names, s, a);
    var mid := first[3];
    Entering(names, mid, b);
    var second := EnterStates(names, mid, b);
    RunsJoin(names, first, EnterEvents(a), second, EnterEvents(b));
    ss, evs := first + second[1..], EnterEvents(a) + EnterEvents(b);
    var last := ss[|ss| - 1];
    assert last == second[3];
    assert Inside(PcOf(last, a)) && Inside(PcOf(last, b));
  }

  ghost predicate AlwaysExclusive(names: Names) {
    forall ss, evs, k :: Run(names, ss, evs) && Initial(names, ss[0]) && 0 <= k < |ss| ==> Exclusive(names, ss[k])
  }

  /** Mutual exclusion holds in all runs exactly if no two actors of the cluster share a name. */
  lemma ExclusiveIffApart(names: Names)
    requires |names.agents| == |names.lifecycles|
    ensures AlwaysExclusive(names) <==> Apart(names)
  {
    if Apart(names) {
      forall ss, evs, k | Run(names, ss, evs) && Initial(names, ss[0]) && 0 <= k < |ss| ensures Exclusive(names, ss[k]) {
        EveryRunExclusive(names, ss, evs, k);
      }
    } else {
      var a, b :| IsActor(names, a) && IsActor(names, b) && a != b && NameOf(names, a) == NameOf(names, b);
      var n := |names.agents|;
      var s := State(None, seq(n, i => Idle), seq(n, i => Idle));
      var ss, evs := Collision(names, s, a, b);
      assert Run(names, ss, evs) && Initial(names, ss[0]) && !Exclusive(names, ss[|ss| - 1]);
    }
  }

  // ---------- the configured names ----------

  const SUFFIX: string := "-EnjoliverAgent"

  /** `getLocksmithConfig`: the agent adds a suffix to the raw query that its host's
      lifecycle scripts use bare. */
  function Configured(rawQueries: seq<string>): Names {
    Names(seq(|rawQueries|, i requires 0 <= i < |rawQueries| => rawQueries[i] + SUFFIX), rawQueries)
  }

  /** The names are apart exactly if no query repeats and none is another with the suffix. */
  lemma ConfiguredApartIff(raw: seq<string>)
    ensures Apart(Configured(raw)) <==>
            Distinct(raw) && forall i, j :: 0 <= i < |raw| && 0 <= j < |raw| ==> raw[i] != raw[j] + SUFFIX
  {
    var names := Configured(raw);
    if Apart(names) {
      forall i, j | 0 <= i < j < |raw| ensures raw[i] != raw[j] {
        assert NameOf(names, Lifecycle(i)) != NameOf(names, Lifecycle(j));
      }
      forall i, j | 0 <= i < |raw| && 0 <= j < |raw| ensures raw[i] != raw[j] + SUFFIX {
        assert NameOf(names, Lifecycle(i)) != NameOf(names, Agent(j));
      }
    }
    if Distinct(raw) && forall i, j :: 0 <= i < |raw| && 0 <= j < |raw| ==> raw[i] != raw[j] + SUFFIX {
      forall a, b | IsActor(names, a) && IsActor(names, b) && a != b ensures NameOf(names, a) != NameOf(names, b) {
        if a.Agent? && b.Agent? {
          assert raw[a.host] != raw[b.host];
          SameSuffix(raw[a.host], raw[b.host]);
        }
      }
    }
  }

  lemma SameSuffix(x: string, y: string)
    ensures x + SUFFIX == y + SUFFIX ==> x == y
  {
    assert (x + SUFFIX)[..|x|] == x && (y + SUFFIX)[..|y|] == y;
  }

  /** Without the suffix an agent and the lifecycle script of its own host undo each other. */
  lemma WithoutSuffix(raw: seq<string>)
    requires raw != []
    ensures !AlwaysExclusive(Names(raw, raw))
  {
    assert NameOf(Names(raw, raw), Agent(0)) == NameOf(Names(raw, raw), Lifecycle(0));
    ExclusiveIffApart(Names(raw, raw));
  }
}
