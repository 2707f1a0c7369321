/** `systemd_restart.go` and the unit lists of `init.go`: the restart of the Kubernetes
    units of one host under the lock. What systemd, the lock service and the other hosts
    answer is arbitrary; the log records every command in order. */
module Agent {
  import opened Prelude
  import opened Locksmith

  /** A command and its answer. A look or a start without an answer is one that dbus
      refused. */
  datatype Call =
    | Connect(connected: bool)
    | Stop(name: string, accepted: bool)
    | StartUnit(name: string, done: Option<bool>)
    | Look(name: string, state: Option<UnitState>)
    | Lock(granted: bool)
    | Unlock(released: bool)

  datatype UnitState = UnitActive | UnitInactive | UnitFailed | UnitOther

  const WAIT_TRIES := 30
  const START_TRIES := 10
  const LOCK_TRIES := 10

  // ---------- the unit lists ----------

  const NODE_UNITS: seq<string> := ["kubelet.service", "rkt-api.service"]
  const CONTROL_PLANE_UNITS: seq<string> := NODE_UNITS + ["kube-apiserver.service", "etcd3@kubernetes.service"]

  /** `getKubernetesSystemdUnits` */
  function KubernetesUnits(controlPlane: bool): seq<string> {
    if controlPlane then CONTROL_PLANE_UNITS else NODE_UNITS
  }

  const DOWN: set<UnitState> := {UnitInactive, UnitFailed}
  const UP: set<UnitState> := {UnitActive}

  // ---------- the shape of a log ----------

  function Repeated(c: Call, n: nat): (r: seq<Call>)
    ensures |r| == n && forall i :: 0 <= i < n ==> r[i] == c
  {
    seq(n, i => c)
  }

  /** Looks at a unit until it is in one of the states, dbus refuses, or thirty were made. */
  ghost predicate Looks(name: string, states: set<UnitState>, calls: seq<Call>, ok: bool) {
    && 0 < |calls| <= 30
    && (forall i :: 0 <= i < |calls| - 1 ==> calls[i].Look? && calls[i].name == name && calls[i].state.Some? && calls[i].state.value !in states)
    && var last := calls[|calls| - 1];
    && last.Look? && last.name == name
    && (if ok then last.state.Some? && last.state.value in states
        else last.state.None? || (last.state.value !in states && |calls| == 30))
  }

  /** Starts of a unit until one is done, dbus refuses, or ten were made. */
  ghost predicate Starts(name: string, calls: seq<Call>, ok: bool) {
    && 0 < |calls| <= 10
    && (forall i :: 0 <= i < |calls| - 1 ==> calls[i] == StartUnit(name, Some(false)))
    && var last := calls[|calls| - 1];
    && last.StartUnit? && last.name == name
    && (if ok then last.done == Some(true) else last.done.None? || (last.done == Some(false) && |calls| == 10))
  }

  /** The first n units were stopped in order, each seen down before the next. */
  ghost predicate Stopped(units: seq<string>, n: nat, calls: seq<Call>)
    requires n <= |units|
  {
    if n == 0 then calls == []
    else exists before: seq<Call>, block: seq<Call> ::
      Stopped(units, n - 1, before) && StoppedOne(units[n - 1], block) && calls == before + block
  }

  /** An accepted stop after which the unit was seen down. */
  ghost predicate StoppedOne(name: string, calls: seq<Call>) {
    exists looks :: Looks(name, {UnitInactive, UnitFailed}, looks, true) && calls == [Stop(name, true)] + looks
  }

  /** The stop of a unit that was refused, or after which it was not seen down. */
  ghost predicate FailedStop(name: string, calls: seq<Call>) {
    calls == [Stop(name, false)] || (exists looks :: Looks(name, {UnitInactive, UnitFailed}, looks, false) && calls == [Stop(name, true)] + looks)
  }

  /** The stopping ends with the last unit or with the first that fails. */
  ghost predicate StopPhase(units: seq<string>, calls: seq<Call>) {
    || Stopped(units, |units|, calls)
    || exists n: nat, before: seq<Call>, failed: seq<Call> ::
         n < |units| && Stopped(units, n, before) && FailedStop(units[n], failed) && calls == before + failed
  }

  /** The units from the last down to number k were started; bad counts those not seen
      active afterwards. */
  ghost predicate StartPhase(units: seq<string>, k: nat, calls: seq<Call>, bad: nat)
    requires k <= |units|
    decreases |units| - k
  {
    if k == |units| then calls == [] && bad == 0
    else exists before: seq<Call>, starts: seq<Call>, looks: seq<Call>, started: bool, up: bool ::
      && Starts(units[k], starts, started) && Looks(units[k], {UnitActive}, looks, up)
      && (!up ==> bad > 0) && StartPhase(units, k + 1, before, if up then bad else bad - 1)
      && calls == before + (starts + looks)
  }

  /** One restart: without a connection to dbus it ends at once. Otherwise the stops, then
      every unit started in the reverse order whatever came before; it succeeds exactly if
      every unit was seen active. */
  ghost predicate RestartCalls(units: seq<string>, calls: seq<Call>, ok: bool) {
    || (calls == [Connect(false)] && !ok)
    || exists stops: seq<Call>, starts: seq<Call>, bad: nat ::
         StopPhase(units, stops) && StartPhase(units, 0, starts, bad) && calls == [Connect(true)] + (stops + starts) && (ok <==> bad == 0)
  }

  /** The unit was started and, at the end of some later looks, seen active. */
  ghost predicate SeenActive(name: string, calls: seq<Call>) {
    exists i, j :: 0 <= i < j < |calls| && calls[i].StartUnit? && calls[i].name == name && calls[j] == Look(name, Some(UnitActive))
  }

  ghost predicate Started(name: string, calls: seq<Call>) {
    exists i :: 0 <= i < |calls| && calls[i].StartUnit? && calls[i].name == name
  }

  lemma SeenLonger(name: string, a: seq<Call>, b: seq<Call>, c: seq<Call>)
    ensures SeenActive(name, b) ==> SeenActive(name, a + b + c)
    ensures Started(name, b) ==> Started(name, a + b + c)
  {
    var all := a + b + c;
    assert forall i :: 0 <= i < |b| ==> all[|a| + i] == b[i];
    if SeenActive(name, b) {
      var i, j :| 0 <= i < j < |b| && b[i].StartUnit? && b[i].name == name && b[j] == Look(name, Some(UnitActive));
      assert all[|a| + i] == b[i] && all[|a| + j] == b[j];
    }
    if Started(name, b) {
      var i :| 0 <= i < |b| && b[i].StartUnit? && b[i].name == name;
      assert all[|a| + i] == b[i];
    }
  }

  lemma BlockSays(name: string, starts: seq<Call>, looks: seq<Call>, started: bool, up: bool)
    requires Starts(name, starts, started) && Looks(name, {UnitActive}, looks, up)
    ensures Started(name, starts + looks) && (up ==> SeenActive(name, starts + looks))
  {
    var all := starts + looks;
    assert all[0] == starts[0] && all[|all| - 1] == looks[|looks| - 1];
    assert starts[0].StartUnit? && starts[0].name == name;
  }

  lemma {:induction false} StartPhaseSays(units: seq<string>, k: nat, calls: seq<Call>, bad: nat, i: nat)
    requires k <= i < |units| && StartPhase(units, k, calls, bad)
    ensures Started(units[i], calls) && (bad == 0 ==> SeenActive(units[i], calls))
    decreases |units| - k
  {
    var before: seq<Call>, starts: seq<Call>, looks: seq<Call>, started: bool, up: bool :|
      && Starts(units[k], starts, started) && Looks(units[k], {UnitActive}, looks, up)
      && (!up ==> bad > 0) && StartPhase(units, k + 1, before, if up then bad else bad - 1)
      && calls == before + (starts + looks);
    hide Starts, Looks, SeenActive, Started;
    if i == k {
      BlockSays(units[k], starts, looks, started, up);
      SeenLonger(units[k], before, starts + looks, []);
      assert before + (starts + looks) + [] == calls;
    } else {
      StartPhaseSays(units, k + 1, before, if up then bad else bad - 1, i);
      SeenLonger(units[i], [], before, starts + looks);
      assert [] + before + (starts + looks) == calls;
    }
  }

  /** A restart either fails to connect to dbus, and then it fails without having started
      any unit, or it starts every unit however the stopping went; after a restart that
      succeeded every unit was seen active after its start. */
  lemma EveryUnitStarted(units: seq<string>, calls: seq<Call>, ok: bool, i: nat)
    requires RestartCalls(units, calls, ok) && i < |units|
    ensures Started(units[i], calls) <==> calls != [Connect(false)]
    ensures calls == [Connect(false)] ==> !ok
    ensures ok ==> SeenActive(units[i], calls)
  {
    hide *;
    if calls == [Connect(false)] {
      NotConnected(units, calls, ok, units[i]);
    } else {
      var stops, starts, bad := Phases(units, calls, ok);
      StartPhaseSays(units, 0, starts, bad, i);
      SeenLonger(units[i], [Connect(true)] + stops, starts, []);
      assert [Connect(true)] + stops + starts + [] == calls;
    }
  }

  lemma Phases(units: seq<string>, calls: seq<Call>, ok: bool) returns (stops: seq<Call>, starts: seq<Call>, bad: nat)
    requires RestartCalls(units, calls, ok) && calls != [Connect(false)]
    ensures StartPhase(units, 0, starts, bad) && calls == [Connect(true)] + (stops + starts) && (ok <==> bad == 0)
  {
    hide StopPhase, StartPhase;
    stops, starts, bad :|
      StopPhase(units, stops) && StartPhase(units, 0, starts, bad) && calls == [Connect(true)] + (stops + starts) && (ok <==> bad == 0);
  }

  lemma NotConnected(units: seq<string>, calls: seq<Call>, ok: bool, name: string)
    requires RestartCalls(units, calls, ok) && calls == [Connect(false)]
    ensures !ok && !Started(name, calls)
  {
    hide StopPhase, StartPhase;
    assert calls[0] == Connect(false);
  }

  /** The units that a restart works through, on a control plane and on a node. */
  lemma UnitLists()
    ensures KubernetesUnits(true) == ["kubelet.service", "rkt-api.service", "kube-apiserver.service", "etcd3@kubernetes.service"]
    ensures KubernetesUnits(false) == ["kubelet.service", "rkt-api.service"]
  {}

  /** The unit was asked to stop and, at the end of some later looks, seen down. */
  ghost predicate SeenDown(name: string, calls: seq<Call>) {
    exists i, j :: 0 <= i < j < |calls| && calls[i] == Stop(name, true) && (calls[j] == Look(name, Some(UnitInactive)) || calls[j] == Look(name, Some(UnitFailed)))
  }

  lemma DownLonger(name: string, a: seq<Call>, b: seq<Call>, c: seq<Call>)
    ensures SeenDown(name, b) ==> SeenDown(name, a + b + c)
  {
    var all := a + b + c;
    assert forall i :: 0 <= i < |b| ==> all[|a| + i] == b[i];
    if SeenDown(name, b) {
      var i, j :| 0 <= i < j < |b| && b[i] == Stop(name, true) && (b[j] == Look(name, Some(UnitInactive)) || b[j] == Look(name, Some(UnitFailed)));
      assert all[|a| + i] == b[i] && all[|a| + j] == b[j];
    }
  }

  /** Every unit that was stopped before the next one was really seen down. */
  lemma {:induction false} StoppedSeenDown(units: seq<string>, n: nat, calls: seq<Call>, i: nat)
    requires i < n <= |units| && Stopped(units, n, calls)
    ensures SeenDown(units[i], calls)
  {
    var before: seq<Call>, block: seq<Call> :| Stopped(units, n - 1, before) && StoppedOne(units[n - 1], block) && calls == before + block;
    if i == n - 1 {
      var looks :| Looks(units[i], {UnitInactive, UnitFailed}, looks, true) && block == [Stop(units[i], true)] + looks;
      var last := looks[|looks| - 1];
      assert block[0] == Stop(units[i], true) && block[|looks|] == last;
      assert last == Look(units[i], last.state) && last.state == Some(last.state.value);
      DownLonger(units[i], before, block, []);
      assert before + block + [] == calls;
    } else {
      StoppedSeenDown(units, n - 1, before, i);
      DownLonger(units[i], [], before, block);
      assert [] + before + block == calls;
    }
  }

  // ---------- the agent as an actor of the lock ----------

  /** A step of somebody else that does not take this host down. */
  predicate IsOthers(ev: Event, h: nat) {
    ActorOf(ev) != Actor.Agent(h) && ev != Reboot(h) && ev != PowerLoss(h)
  }

  /** The agent's own steps of a run. */
  ghost function Own(evs: seq<Event>, h: nat): seq<Event> {
    if evs == [] then []
    else
      var n := |evs| - 1;
      Own(evs[..n], h) + (if IsOthers(evs[n], h) then [] else [evs[n]])
  }

  lemma OwnNext(evs: seq<Event>, ev: Event, h: nat)
    ensures Own(evs + [ev], h) == if IsOthers(ev, h) then Own(evs, h) else Own(evs, h) + [ev]
  {
    assert (evs + [ev])[..|evs|] == evs;
  }

  /** Others leave the agent where it is, and with names of their own they leave its lock. */
  lemma OthersLeave(names: Names, s: State, ev: Event, h: nat)
    requires Sized(names, s) && IsActor(names, Actor.Agent(h)) && Enabled(names, s, ev) && IsOthers(ev, h)
    ensures var t := After(names, s, ev);
      && Sized(names, t) && t.agents[h] == s.agents[h] && (!s.lifecycles[h].Down? ==> !t.lifecycles[h].Down?)
      && (Apart(names) ==> (t.holder == Some(names.agents[h]) <==> s.holder == Some(names.agents[h])))
  {
    var a := ActorOf(ev);
    assert Apart(names) && IsActor(names, a) ==> NameOf(names, a) != NameOf(names, Actor.Agent(h));
    hide Apart;
  }

  lemma StepSized(names: Names, s: State, ev: Event)
    requires Sized(names, s) && Enabled(names, s, ev)
    ensures Sized(names, After(names, s, ev))
  {}

  lemma RunOneMore(names: Names, ss: seq<State>, evs: seq<Event>, ev: Event, t: State)
    requires Run(names, ss, evs) && Sized(names, ss[|evs|]) && Step(names, ss[|evs|], ev, t)
    ensures Run(names, ss + [t], evs + [ev])
  {
    hide Step, Sized;
  }

  // ---------- the runtime ----------

  method SomeNumber() returns (n: nat) {
    n := *;
  }

  /** Any event of the cluster. */
  method SomeEvent() returns (ev: Event) {
    ev := *;
  }

  class Runtime {
    const units: seq<string>
    const names: Names
    const host: nat
    /** The whole cluster: who holds the lock, and where every actor is. */
    var cluster: State
    var log: seq<Call>
    /** The run of the cluster so far. */
    ghost var states: seq<State>
    ghost var events: seq<Event>

    constructor (rawQueries: seq<string>, host: nat, controlPlane: bool)
      requires host < |rawQueries|
      ensures units == KubernetesUnits(controlPlane) && names == Configured(rawQueries) && this.host == host && log == []
      ensures Valid() && Initial(names, cluster) && states == [cluster] && events == []
    {
      var n := |rawQueries|;
      units, log := KubernetesUnits(controlPlane), [];
      names, this.host := Configured(rawQueries), host;
      cluster := State(None, seq(n, _ => Idle), seq(n, _ => Idle));
      states := [State(None, seq(n, _ => Idle), seq(n, _ => Idle))];
      events := [];
    }

    /** The events so far are a run of the lock that ends in the current state. */
    ghost predicate Valid()
      reads `cluster, `states, `events
    {
      && IsActor(names, Actor.Agent(host)) && Sized(names, cluster)
      && |states| == |events| + 1 && states[|events|] == cluster && Run(names, states, events)
    }

    function Name(): string
      requires host < |names.agents|
    {
      names.agents[host]
    }

    /** This host is up and its agent is at that place. */
    ghost predicate At(pc: Pc)
      reads `cluster, `states, `events
    {
      Valid() && cluster.agents[host] == pc && !cluster.lifecycles[host].Down?
    }

    /** One step of the cluster. */
    method Take(ev: Event)
      requires Valid() && Enabled(names, cluster, ev)
      modifies `cluster, `states, `events
      ensures Valid() && cluster == After(names, old(cluster), ev)
      ensures events == old(events) + [ev] && states == old(states) + [cluster]
    {
      hide Enabled, After;
      StepSized(names, cluster, ev);
      RunOneMore(names, states, events, ev, After(names, cluster, ev));
      cluster := After(names, cluster, ev);
      states, events := states + [cluster], events + [ev];
    }

    /** What other actors do meanwhile. */
    method OthersAct(ghost pc: Pc)
      requires At(pc)
      modifies `cluster, `states, `events
      ensures At(pc) && Own(events, host) == old(Own(events, host)) && old(events) <= events && old(states) <= states
      ensures Apart(names) ==> (cluster.holder == Some(Name()) <==> old(cluster.holder) == Some(Name()))
    {
      hide Enabled, After, IsOthers, Apart, Own, Run;
      var n: nat := SomeNumber();
      for i := 0 to n
        invariant At(pc) && Own(events, host) == old(Own(events, host)) && old(events) <= events && old(states) <= states
        invariant Apart(names) ==> (cluster.holder == Some(Name()) <==> old(cluster.holder) == Some(Name()))
      {
        var ev := SomeEvent();
        if IsOthers(ev, host) && Enabled(names, cluster, ev) {
          OthersLeave(names, cluster, ev, host);
          OwnNext(events, ev, host);
          Take(ev);
        }
      }
    }

    /** The agent's own step. */
    method Act(ev: Event)
      requires Valid() && Enabled(names, cluster, ev) && !IsOthers(ev, host)
      modifies `cluster, `states, `events
      ensures Valid() && cluster == After(names, old(cluster), ev)
      ensures Own(events, host) == old(Own(events, host)) + [ev] && old(events) <= events && old(states) <= states
    {
      hide Enabled, After, IsOthers, Own;
      OwnNext(events, ev, host);
      Take(ev);
    }

    /** `locksmithAction("lock")`: refused unless the lock is free; the answer may be lost. */
    method TakeLock(tried: nat) returns (ok: bool, answer: Answer)
      requires At(Locking(tried)) && tried < LOCK_TRIES
      modifies this
      ensures log == old(log) + [Lock(ok)] && (ok <==> answer == Granted)
      ensures At(if ok then Active else if tried + 1 < LOCK_TRIES then Locking(tried + 1) else Idle)
      ensures Own(events, host) == old(Own(events, host)) + [TryLock(Actor.Agent(host), answer)] && old(events) <= events && old(states) <= states
      ensures ok ==> cluster.holder == Some(Name())
    {
      hide Own, Apart, Run;
      OthersAct(Locking(tried));
      var fails, late := *, *;
      answer := if cluster.holder != None then Refused else if !fails then Granted else if late then Lost else Refused;
      ok := answer == Granted;
      Act(TryLock(Actor.Agent(host), answer));
      log := log + [Lock(ok)];
    }

    /** `locksmithAction("unlock")`: an error unless this agent holds the lock; the answer
        may be lost. */
    method GiveLock(closing: bool) returns (ok: bool, done: bool)
      requires At(if closing then Releasing else Opening)
      modifies this
      ensures log == old(log) + [Unlock(ok)] && (ok ==> done && cluster.holder == None)
      ensures At(if closing then Idle else Locking(0))
      ensures Own(events, host) == old(Own(events, host)) + [if closing then Release(host, done) else Open(Actor.Agent(host), done)]
      ensures old(events) <= events && old(states) <= states
      ensures Apart(names) && done ==> cluster.holder != Some(Name())
    {
      hide Own, Apart, Run;
      OthersAct(if closing then Releasing else Opening);
      var fails, late := *, *;
      ok := cluster.holder == Some(Name()) && !fails;
      done := cluster.holder == Some(Name()) && (ok || late);
      Act(if closing then Release(host, done) else Open(Actor.Agent(host), done));
      log := log + [Unlock(ok)];
    }

    /** `waitUnitIs` */
    method WaitUnitIs(name: string, states: set<UnitState>) returns (ok: bool, ghost looks: seq<Call>)
      modifies `log
      ensures log == old(log) + looks && Looks(name, states, looks, ok)
    {
      looks, ok := [], false;
      for i := 0 to WAIT_TRIES
        invariant log == old(log) + looks && |looks| == i
        invariant forall j :: 0 <= j < i ==> looks[j].Look? && looks[j].name == name && looks[j].state.Some? && looks[j].state.value !in states
      {
        var refused, seen: UnitState := *, *;
        var state := if refused then None else Some(seen);
        log, looks := log + [Look(name, state)], looks + [Look(name, state)];
        if state.None? {
          return;
        }
        if state.value in states {
          ok := true;
          return;
        }
      }
    }

    /** `startUnitRetry` */
    method StartUnitRetry(name: string) returns (ok: bool, ghost starts: seq<Call>)
      modifies `log
      ensures log == old(log) + starts && Starts(name, starts, ok)
    {
      starts, ok := [], false;
      for i := 0 to START_TRIES
        invariant log == old(log) + starts && |starts| == i
        invariant forall j :: 0 <= j < i ==> starts[j] == StartUnit(name, Some(false))
      {
        var refused, finished := *, *;
        var done := if refused then None else Some(finished);
        log, starts := log + [StartUnit(name, done)], starts + [StartUnit(name, done)];
        if done.None? {
          return;
        }
        if done.value {
          ok := true;
          return;
        }
      }
    }

    /** The first loop of the restart: stop the units in order until one does not stop. */
    method StopUnits() returns (ghost stops: seq<Call>)
      modifies `log
      ensures log == old(log) + stops && StopPhase(units, stops)
    {
      hide Looks;
      stops := [];
      for i := 0 to |units|
        invariant log == old(log) + stops && Stopped(units, i, stops)
      {
        ghost var before := stops;
        var accepted: bool := *;
        log := log + [Stop(units[i], accepted)];
        if !accepted {
          stops := before + [Stop(units[i], false)];
          assert FailedStop(units[i], [Stop(units[i], false)]);
          return;
        }
        var down, looks := WaitUnitIs(units[i], DOWN);
        stops := before + ([Stop(units[i], true)] + looks);
        assert log == old(log) + stops;
        if !down {
          assert FailedStop(units[i], [Stop(units[i], true)] + looks);
          return;
        }
        assert StoppedOne(units[i], [Stop(units[i], true)] + looks);
      }
    }

    /** The second loop: start every unit in the reverse order. */
    method StartUnits() returns (bad: nat, ghost starts: seq<Call>)
      modifies `log
      ensures log == old(log) + starts && StartPhase(units, 0, starts, bad)
    {
      hide Looks, Starts;
      bad, starts := 0, [];
      var i := |units|;
      while i != 0
        invariant 0 <= i <= |units| && log == old(log) + starts && StartPhase(units, i, starts, bad)
        decreases i
      {
        i := i - 1;
        ghost var before, was := starts, bad;
        var started, tries := StartUnitRetry(units[i]);
        var up, looks := WaitUnitIs(units[i], UP);
        if !up {
          bad := bad + 1;
        }
        starts := before + (tries + looks);
        assert log == old(log) + starts;
        OneMoreStarted(units, i, before, tries, looks, started, up, was);
      }
    }

    /** `restartSystemdKubernetesStack` */
    method RestartStack() returns (ok: bool, ghost calls: seq<Call>)
      modifies `log
      ensures log == old(log) + calls && RestartCalls(units, calls, ok)
    {
      hide StopPhase, StartPhase;
      var connected: bool := *;
      log := log + [Connect(connected)];
      if !connected {
        return false, [Connect(false)];
      }
      var stops := StopUnits();
      var bad, starts := StartUnits();
      ok, calls := bad == 0, [Connect(true)] + (stops + starts);
      assert log == old(log) + calls;
    }

    /** Up to ten tries for the lock. */
    method TryForLock() returns (granted: bool, ghost refused: nat, ghost answers: seq<Answer>)
      requires At(Locking(0))
      modifies this
      ensures log == old(log) + (Repeated(Lock(false), refused) + (if granted then [Lock(true)] else []))
      ensures if granted then refused < 10 && cluster.holder == Some(Name()) else refused == 10
      ensures At(if granted then Active else Idle) && Answered(answers, refused, granted)
      ensures Own(events, host) == old(Own(events, host)) + Tries(host, answers) && old(events) <= events && old(states) <= states
    {
      hide Own, Run, Valid;
      refused, granted, answers := 0, false, [];
      assert log == log + (Repeated(Lock(false), 0) + []);
      for i := 0 to LOCK_TRIES
        invariant !granted && refused == i && log == old(log) + Repeated(Lock(false), i)
        invariant At(if i < LOCK_TRIES then Locking(i) else Idle) && Answered(answers, i, false)
        invariant Own(events, host) == old(Own(events, host)) + Tries(host, answers) && old(events) <= events && old(states) <= states
      {
        var answer;
        granted, answer := TakeLock(i);
        answers := answers + [answer];
        assert Tries(host, answers) == Tries(host, answers[..i]) + [TryLock(Actor.Agent(host), answer)];
        if granted {
          return;
        }
        assert Repeated(Lock(false), i) + [Lock(false)] == Repeated(Lock(false), i + 1);
        refused := i + 1;
      }
    }

    /** The agent turns to a restart, is done with it, or is gone after one that failed. */
    method Turn(ev: Event, ghost was: Pc, ghost pc: Pc)
      requires At(was)
      requires || (ev == Start(Actor.Agent(host)) && was == Idle && pc == Opening)
               || (ev == Finish(host) && was == Active && pc == Releasing)
               || (ev == Crash(Actor.Agent(host)) && was == Active && pc == Idle)
      modifies `cluster, `states, `events
      ensures At(pc) && cluster.holder == old(cluster.holder)
      ensures Own(events, host) == old(Own(events, host)) + [ev] && old(events) <= events && old(states) <= states
    {
      hide Own, Run;
      Act(ev);
    }

    /** `RestartKubernetes`: an opening unlock, at most ten tries for the lock, the
        restart, and a closing unlock only after a restart that succeeded. A failed
        restart returns with the lock still held. Whatever the other actors of the cluster
        do meanwhile, all of it is a run of the lock in which the agent's commands are its
        steps; `steps` tells how they took effect. */
    method RestartKubernetes() returns (ok: bool, ghost o: Restart, ghost steps: LockSteps)
      requires At(Idle)
      modifies this
      ensures log == old(log) + CallsOf(o) && Legal(units, o)
      ensures ok <==> o.Restarted? && o.succeeded && o.released
      ensures At(Idle) && old(events) <= events && old(states) <= states
      ensures Own(events, host) == old(Own(events, host)) + StepsOf(o, host, steps) && Agrees(o, steps)
      ensures Apart(names) && o.Restarted? && !o.succeeded ==> cluster.holder == Some(Name())
      ensures ok ==> cluster.holder == None
    {
      hide *;
      ghost var start, was := log, Own(events, host);
      Turn(Start(Actor.Agent(host)), Idle, Opening);
      var opening, freed := GiveLock(false);
      var granted, refused, answers := TryForLock();
      if !granted {
        o, steps := NotGranted(opening), LockSteps(freed, answers, false);
        NotGrantedLog(units, start, o, log);
        StepsAgree(o, host, steps, refused, was, Own(events, host));
        return false, o, steps;
      }
      var restarted, calls := RestartStack();
      OthersAct(Active);
      if !restarted {
        Turn(Crash(Actor.Agent(host)), Active, Idle);
        o, steps := Restarted(opening, refused, calls, false, false), LockSteps(freed, answers, false);
        RestartedLog(units, start, o, log);
        StepsAgree(o, host, steps, refused, was, Own(events, host));
        return false, o, steps;
      }
      Turn(Finish(host), Active, Releasing);
      var closed;
      ok, closed := GiveLock(true);
      o, steps := Restarted(opening, refused, calls, true, ok), LockSteps(freed, answers, closed);
      RestartedLog(units, start, o, log);
      StepsAgree(o, host, steps, refused, was, Own(events, host));
    }
  }

  /** How the lock commands of one restart took effect: the opening unlock, the tries, the
      closing unlock. */
  datatype LockSteps = LockSteps(freed: bool, answers: seq<Answer>, closed: bool)

  function Tries(h: nat, answers: seq<Answer>): (r: seq<Event>)
    ensures |r| == |answers| && forall i :: 0 <= i < |r| ==> r[i] == TryLock(Actor.Agent(h), answers[i])
  {
    seq(|answers|, i requires 0 <= i < |answers| => TryLock(Actor.Agent(h), answers[i]))
  }

  /** That many tries were not granted, and then one was if any. */
  ghost predicate Answered(answers: seq<Answer>, refused: nat, granted: bool) {
    && |answers| == (if granted then refused + 1 else refused)
    && forall i :: 0 <= i < |answers| ==> (answers[i] == Granted <==> i == refused)
  }

  /** The steps of the lock that the commands of one restart stand for; an agent that gives
      up after a failed restart is gone with its lock still taken. */
  ghost function StepsOf(o: Restart, h: nat, steps: LockSteps): seq<Event> {
    [Start(Actor.Agent(h)), Open(Actor.Agent(h), steps.freed)] + Tries(h, steps.answers)
    + (if o.NotGranted? then [] else if o.succeeded then [Finish(h), Release(h, steps.closed)] else [Crash(Actor.Agent(h))])
  }

  /** An unlock that was answered took effect, and the try that was answered is the one
      that was granted. */
  ghost predicate Agrees(o: Restart, steps: LockSteps) {
    && (o.opening ==> steps.freed)
    && (o.NotGranted? ==> Answered(steps.answers, 10, false))
    && (o.Restarted? ==> Answered(steps.answers, o.refused, true) && (o.released ==> steps.closed))
  }

  lemma StepsAgree(o: Restart, h: nat, steps: LockSteps, refused: nat, was: seq<Event>, own: seq<Event>)
    requires Answered(steps.answers, refused, o.Restarted?) && (if o.NotGranted? then refused == 10 else refused == o.refused)
    requires (o.opening ==> steps.freed) && (o.Restarted? && o.released ==> steps.closed)
    requires own == was + [Start(Actor.Agent(h))] + [Open(Actor.Agent(h), steps.freed)] + Tries(h, steps.answers)
                    + (if o.NotGranted? then [] else if o.succeeded then [Finish(h)] + [Release(h, steps.closed)] else [Crash(Actor.Agent(h))])
    ensures own == was + StepsOf(o, h, steps) && Agrees(o, steps)
  {
    hide Answered, Tries;
    assert [Start(Actor.Agent(h))] + [Open(Actor.Agent(h), steps.freed)] == [Start(Actor.Agent(h)), Open(Actor.Agent(h), steps.freed)];
    assert [Finish(h)] + [Release(h, steps.closed)] == [Finish(h), Release(h, steps.closed)];
  }

  /** A restart without a connection to dbus is one that failed: as after any other failed
      restart, the agent returns with the lock still taken. */
  lemma UnconnectedFails(units: seq<string>, o: Restart)
    requires Legal(units, o) && o.Restarted? && o.calls == [Connect(false)]
    ensures !o.succeeded && !o.released
  {
    hide RestartCalls;
    NotConnected(units, o.calls, o.succeeded, "");
  }

  /** Over all restarts of all time, between whatever the others do: while this agent is at
      work on its units nobody else in the cluster is inside. */
  lemma RestartsAlone(r: Runtime, b: Actor)
    requires r.At(Active) && Apart(r.names) && Initial(r.names, r.states[0]) && IsActor(r.names, b) && b != Actor.Agent(r.host)
    ensures !Inside(PcOf(r.cluster, b)) && r.cluster.holder == Some(r.Name())
  {
    EveryRunExclusive(r.names, r.states, r.events, |r.events|);
    assert Inside(PcOf(r.cluster, Actor.Agent(r.host)));
  }

  lemma NotGrantedLog(units: seq<string>, start: seq<Call>, o: Restart, log: seq<Call>)
    requires o.NotGranted? && log == start + [Unlock(o.opening)] + (Repeated(Lock(false), 10) + [])
    ensures log == start + CallsOf(o) && Legal(units, o)
  {}

  lemma RestartedLog(units: seq<string>, start: seq<Call>, o: Restart, log: seq<Call>)
    requires o.Restarted? && o.refused < 10 && RestartCalls(units, o.calls, o.succeeded) && (o.released ==> o.succeeded)
    requires log == start + [Unlock(o.opening)] + (Repeated(Lock(false), o.refused) + [Lock(true)]) + o.calls
                    + (if o.succeeded then [Unlock(o.released)] else [])
    ensures log == start + CallsOf(o) && Legal(units, o)
  {
    hide RestartCalls, Repeated;
    Assembled(start, [Unlock(o.opening)], Repeated(Lock(false), o.refused) + [Lock(true)], o.calls,
              if o.succeeded then [Unlock(o.released)] else []);
  }

  lemma Assembled(l: seq<Call>, a: seq<Call>, b: seq<Call>, c: seq<Call>, d: seq<Call>)
    ensures l + a + b + c + d == l + (a + b + c + d)
  {}

  lemma OneMoreStarted(units: seq<string>, k: nat, before: seq<Call>, starts: seq<Call>, looks: seq<Call>, started: bool, up: bool, bad: nat)
    requires k < |units| && StartPhase(units, k + 1, before, bad)
    requires Starts(units[k], starts, started) && Looks(units[k], {UnitActive}, looks, up)
    ensures StartPhase(units, k, before + (starts + looks), if up then bad else bad + 1)
  {
    hide Starts, Looks;
  }

  /** What one restart came to. */
  datatype Restart =
    | NotGranted(opening: bool)
    | Restarted(opening: bool, refused: nat, calls: seq<Call>, succeeded: bool, released: bool)

  ghost function CallsOf(o: Restart): seq<Call> {
    match o
    case NotGranted(opening) => [Unlock(opening)] + (Repeated(Lock(false), 10) + [])
    case Restarted(opening, refused, calls, succeeded, released) =>
      [Unlock(opening)] + (Repeated(Lock(false), refused) + [Lock(true)]) + calls + (if succeeded then [Unlock(released)] else [])
  }

  ghost predicate Legal(units: seq<string>, o: Restart) {
    o.Restarted? ==> o.refused < 10 && RestartCalls(units, o.calls, o.succeeded) && (o.released ==> o.succeeded)
  }
}
