/** `schedulerv2.py`: how the plan process reads the listings and posts roles, with
    requests that may fail, and what a pass does when none fails. Everything the process
    does is a run of the step system of PlanRun. */
module Plan {
  import opened Prelude
  import opened Machines
  import opened Database
  import opened Queries
  import opened Scheduling
  import opened PlanRun
  import opened PlanSafety
  import opened Placement

  /** What a caller sees of an exception: a refused or broken connection, an answer that
      is not JSON (an error page of the API), anything else. */
  datatype Failure = NoConnection | NotJson | OtherFailure

  datatype Reply<T> = Got(value: T) | Failed(failure: Failure)

  /** What a scheduler call ends with; `NoTry` if it was allowed no try at all. */
  datatype Tried<T> = Done(value: T) | Raised(failure: Failure) | NoTry

  function FailureOf<T>(r: Reply<T>): seq<Failure> {
    if r.Failed? then [r.failure] else []
  }

  method SomeFailure() returns (f: Failure) {
    var a, b := *, *;
    f := if a then NoConnection else if b then NotJson else OtherFailure;
  }

  /** The API as the plan sees it. When it is not reliable any request may fail, and a
      POST may fail before or after its transaction. */
  class Api {
    const repo: MachineScheduleRepository
    const reliable: bool
    /** The failed replies so far, and the queries for machines by their roles. */
    var failures: seq<Failure>
    var queries: multiset<seq<Role>>

    constructor (repo: MachineScheduleRepository, reliable: bool)
      ensures this.repo == repo && this.reliable == reliable && failures == [] && queries == multiset{}
    {
      this.repo, this.reliable, failures, queries := repo, reliable, [], multiset{};
    }

    /** Keeps a failed reply in mind. */
    method Note<T>(r: Reply<T>)
      modifies `failures
      ensures failures == old(failures) + FailureOf(r)
    {
      if r.Failed? {
        failures := failures + [r.failure];
      }
    }

    method GetByRoles(roles: seq<Role>) returns (r: Reply<seq<Nic>>, ghost us: seq<string>)
      requires Valid(repo.db.committed)
      modifies `failures, `queries
      ensures failures == old(failures) + FailureOf(r) && queries == old(queries) + multiset{roles}
      ensures r.Got? ==> Enumerates(us, RoleHosts(View(repo.db.committed), roles)) && BootNics(View(repo.db.committed), us, r.value)
      ensures r.Got? ==> AllHaveBoot(View(repo.db.committed), RoleHosts(View(repo.db.committed), roles))
      ensures reliable ==> (r.Got? <==> AllHaveBoot(View(repo.db.committed), RoleHosts(View(repo.db.committed), roles)))
      ensures reliable && r.Failed? ==> r.failure == NotJson
    {
      hide *;
      var l: Option<seq<Nic>>;
      l, us := repo.GetMachinesByRoles(roles);
      r := if l.Some? then Got(l.value) else Failed(NotJson);
      var lost := *;
      if !reliable && lost {
        var f := SomeFailure();
        r := Failed(f);
      }
      queries := queries + multiset{roles};
      Note(r);
    }

    method GetAvailable() returns (r: Reply<seq<Nic>>, ghost us: seq<string>)
      requires Valid(repo.db.committed)
      modifies `failures
      ensures failures == old(failures) + FailureOf(r)
      ensures r.Got? ==> Enumerates(us, Available(View(repo.db.committed))) && AnyNics(View(repo.db.committed), us, r.value)
      ensures reliable ==> r.Got?
    {
      hide *;
      var l: seq<Nic>;
      l, us := repo.GetAvailableMachines();
      r := Got(l);
      var lost := *;
      if !reliable && lost {
        var f := SomeFailure();
        r := Failed(f);
      }
      Note(r);
    }

    method GetIpList(role: Role) returns (r: Reply<seq<string>>, ghost us: seq<string>)
      requires Valid(repo.db.committed)
      modifies `failures
      ensures failures == old(failures) + FailureOf(r)
      ensures r.Got? ==> Enumerates(us, ListedWithRole(View(repo.db.committed), role)) && SomeIps(View(repo.db.committed), us, r.value)
      ensures reliable ==> r.Got?
    {
      hide *;
      var l: seq<string>;
      l, us := repo.GetRoleIpList(role);
      r := Got(l);
      var lost := *;
      if !reliable && lost {
        var f := SomeFailure();
        r := Failed(f);
      }
      Note(r);
    }

    /** `POST /sync-notify`. */
    method Notify() returns (r: Reply<()>)
      modifies `failures
      ensures failures == old(failures) + FailureOf(r)
      ensures reliable ==> r.Got?
    {
      r := Got(());
      var lost := *;
      if !reliable && lost {
        var f := SomeFailure();
        r := Failed(f);
      }
      Note(r);
    }

    /** `_affect`: a POST that returns has committed, whatever its status. */
    method PostSchedule(mac: string, roles: seq<Role>) returns (r: Reply<()>, ghost o: Outcome)
      requires Valid(repo.db.committed)
      modifies repo.db, `failures
      ensures Valid(repo.db.committed) && failures == old(failures) + FailureOf(r)
      ensures View(repo.db.committed) == Posted(old(View(repo.db.committed)), mac, roles, o)
      ensures r.Got? <==> o == Returned
      ensures reliable ==> r.Got?
    {
      hide View, Valid, Schedule;
      var lost, early := *, *;
      if !reliable && lost {
        var f := SomeFailure();
        r, o := Failed(f), Lost(!early);
        if !early {
          var _ := repo.CreateSchedule(Request(mac, roles));
        }
      } else {
        var _ := repo.CreateSchedule(Request(mac, roles));
        r, o := Got(()), Returned;
      }
      Note(r);
    }
  }

  /** The plan's state between two requests. */
  ghost function StateOf(t: Tables, phase: Phase, files: map<(Marker, nat), string>): State {
    State(View(t), phase, files)
  }

  /** g is f with the bundle on the machines of the n smallest listed MACs, for some
      listing of the available machines. */
  ghost predicate SmallestPlaced(f: Fleet, g: Fleet, n: nat, roles: seq<Role>) {
    exists us, listed :: Chosen(f, us, listed, n) && g == PostAll(f, MacList(InOrder(listed))[..n], roles)
  }

  ghost predicate Chosen(f: Fleet, us: seq<string>, listed: seq<Nic>, n: nat) {
    Enumerates(us, Available(f)) && AnyNics(f, us, listed) && n <= |listed|
  }

  /** `fetch_available`: no connection reads as an empty list. */
  method FetchAvailable(api: Api) returns (r: Reply<seq<Nic>>, ghost us: seq<string>, ghost complete: bool)
    requires Valid(api.repo.db.committed)
    modifies api`failures
    ensures api.failures == old(api.failures) + (if complete then [] else if r.Got? then [NoConnection] else [r.failure])
    ensures r.Failed? ==> !complete && r.failure != NoConnection
    ensures complete ==> r.Got? && Enumerates(us, Available(View(api.repo.db.committed))) && AnyNics(View(api.repo.db.committed), us, r.value)
    ensures r.Got? && !complete ==> r.value == []
    ensures api.reliable ==> complete
  {
    hide *;
    r, us := api.GetAvailable();
    FailuresAre(old(api.failures), r);
    complete := r.Got?;
    if r == Failed(NoConnection) {
      r := Got([]);
    }
  }

  /** A listing has as many entries as there are available machines. */
  lemma ListedLength(f: Fleet, us: seq<string>, listed: seq<Nic>)
    requires Enumerates(us, Available(f)) && AnyNics(f, us, listed)
    ensures |listed| == |Available(f)|
  {
    DistinctCardinality(us);
    assert Elements(us) == Available(f);
  }

  // ---------- requests as steps ----------

  lemma PostIsStep(expected: nat, t: Tables, s: Tables, todo: seq<string>, files: map<(Marker, nat), string>, o: Outcome)
    requires todo != [] && View(s) == Posted(View(t), todo[0], CONTROL_PLANE_ROLES, o)
    ensures var a, b := StateOf(t, PostingControlPlanes(todo), files), StateOf(s, if o == Returned then PostingControlPlanes(todo[1..]) else Idle, files);
      Step(expected, a, PostControlPlane(o), b) && Orderly(a, PostControlPlane(o))
  {
    hide View, Posted;
  }

  lemma PostedReturned(f: Fleet, mac: string, roles: seq<Role>)
    ensures Posted(f, mac, roles, Returned) == Schedule(f, mac, roles)
  {}

  lemma PostedAll(expected: nat, s0: State, t: Tables, files: map<(Marker, nat), string>)
    requires Reaches(expected, s0, StateOf(t, PostingControlPlanes([]), files))
    ensures Reaches(expected, s0, StateOf(t, NodesDue, files))
    ensures PostAll(View(t), [], CONTROL_PLANE_ROLES) == View(t)
  {
    hide View, Reaches;
    ReachesNext(expected, s0, StateOf(t, PostingControlPlanes([]), files), ControlPlanesPosted, StateOf(t, NodesDue, files));
  }

  lemma StopFrom(expected: nat, s0: State, t: Tables, phase: Phase, files: map<(Marker, nat), string>)
    requires Reaches(expected, s0, StateOf(t, phase, files))
    ensures Reaches(expected, s0, StateOf(t, Idle, files))
  {
    hide View, Reaches;
    ReachesNext(expected, s0, StateOf(t, phase, files), GiveUp, StateOf(t, Idle, files));
  }

  lemma FetchIsStep(expected: nat, t: Tables, us: seq<string>, listed: seq<Nic>, files: map<(Marker, nat), string>)
    requires Enumerates(us, Available(View(t))) && AnyNics(View(t), us, listed) && |listed| >= expected
    ensures var a, b := StateOf(t, Short, files), StateOf(t, PostingControlPlanes(MacList(InOrder(listed))[..expected]), files);
      Step(expected, a, FetchForControlPlanes(us, listed), b) && Orderly(a, FetchForControlPlanes(us, listed))
  {
    hide View, Available, AnyNics, Enumerates, InOrder;
  }

  lemma CountIsStep(expected: nat, t: Tables, files: map<(Marker, nat), string>)
    requires AllHaveBoot(View(t), ControlPlanes(View(t)))
    ensures var a, b := StateOf(t, Idle, files), StateOf(t, if |ControlPlanes(View(t))| < expected then Short else NodesDue, files);
      Step(expected, a, CountControlPlanes, b) && Orderly(a, CountControlPlanes)
  {
    hide View, AllHaveBoot, ControlPlanes;
  }

  lemma CountedAll(f: Fleet, s: set<string>, us: seq<string>, l: seq<Nic>)
    requires Enumerates(us, s) && BootNics(f, us, l)
    ensures |l| == |s|
  {
    DistinctCardinality(us);
    assert Elements(us) == s;
  }

  lemma PlacedByListing(f: Fleet, g: Fleet, us: seq<string>, listed: seq<Nic>, n: nat, roles: seq<Role>)
    requires Enumerates(us, Available(f)) && AnyNics(f, us, listed) && n <= |listed|
    requires g == PostAll(f, MacList(InOrder(listed))[..n], roles)
    ensures SmallestPlaced(f, g, n, roles)
  {
    hide Enumerates, AnyNics, Available, InOrder, PostAll;
    assert Chosen(f, us, listed, n);
  }

  // ---------- what the control plane pass does when no request fails ----------

  ghost predicate BudgetMet(f: Fleet, g: Fleet, expected: nat, r: Tried<bool>) {
    if !AllHaveBoot(f, ControlPlanes(f)) then r == Done(false) && g == f
    else if |ControlPlanes(f)| >= expected then r == Done(true) && g == f
    else if |Available(f)| >= expected then r == Done(true) && SmallestPlaced(f, g, expected, CONTROL_PLANE_ROLES)
    else r == Done(false) && g == f
  }

  lemma BudgetUnread(f: Fleet, expected: nat)
    requires !AllHaveBoot(f, ControlPlanes(f))
    ensures BudgetMet(f, f, expected, Done(false))
  {}

  lemma BudgetThere(f: Fleet, expected: nat)
    requires AllHaveBoot(f, ControlPlanes(f)) && |ControlPlanes(f)| >= expected
    ensures BudgetMet(f, f, expected, Done(true))
  {}

  lemma BudgetShort(f: Fleet, g: Fleet, expected: nat, r: Tried<bool>)
    requires AllHaveBoot(f, ControlPlanes(f)) && |ControlPlanes(f)| < expected
    requires r == Done(|Available(f)| >= expected)
    requires r == Done(true) ==> SmallestPlaced(f, g, expected, CONTROL_PLANE_ROLES)
    requires r == Done(false) ==> g == f
    ensures BudgetMet(f, g, expected, r)
  {}

  lemma BudgetEnds(f: Fleet, g: Fleet, expected: nat, r: Tried<bool>)
    requires BudgetMet(f, g, expected, r)
    ensures r.Done?
  {}

  /** What one try comes to, given the replies that failed meanwhile: none, and it does its
      work; one, and it is passed on as an exception if it is neither a missing connection
      nor an answer that is not JSON, and reads as False otherwise. */
  ghost predicate BudgetTried(f: Fleet, g: Fleet, expected: nat, was: seq<Failure>, now: seq<Failure>, r: Tried<bool>) {
    || (now == was && AllHaveBoot(f, ControlPlanes(f)) && BudgetMet(f, g, expected, r))
    || exists x :: now == was + [x] && r == if x == OtherFailure then Raised(x) else Done(false)
  }

  lemma TriedQuietly(f: Fleet, g: Fleet, expected: nat, was: seq<Failure>, r: Tried<bool>)
    requires AllHaveBoot(f, ControlPlanes(f)) && BudgetMet(f, g, expected, r)
    ensures BudgetTried(f, g, expected, was, was, r)
  {}

  lemma TriedFailing(f: Fleet, g: Fleet, expected: nat, was: seq<Failure>, x: Failure, r: Tried<bool>)
    requires r == if x == OtherFailure then Raised(x) else Done(false)
    ensures BudgetTried(f, g, expected, was, was + [x], r)
  {}

  lemma FailuresAre<T>(was: seq<Failure>, r: Reply<T>)
    ensures was + FailureOf(r) == if r.Failed? then was + [r.failure] else was
  {}

  function Others(n: nat): (r: seq<Failure>)
    ensures |r| == n && forall i :: 0 <= i < n ==> r[i] == OtherFailure
  {
    seq(n, i => OtherFailure)
  }

  function Times(roles: seq<Role>, n: nat): multiset<seq<Role>> {
    multiset{}[roles := n]
  }

  lemma TimesSay(asked: multiset<seq<Role>>, roles: seq<Role>, n: nat)
    ensures asked + Times(roles, 0) == asked && asked + Times(roles, n) + multiset{roles} == asked + Times(roles, n + 1)
  {
    assert Times(roles, n) + multiset{roles} == Times(roles, n + 1);
  }

  lemma OthersSay(was: seq<Failure>, n: nat)
    ensures was + Others(0) == was && was + Others(n) + [OtherFailure] == was + Others(n + 1)
  {}

  /** The last try ended without an exception: with no further failed reply, and then it is
      true or there are too few machines or a control plane cannot be listed, or with one
      that reads as False. */
  ghost predicate DoneAfter(g: Fleet, expected: nat, was: seq<Failure>, now: seq<Failure>, enough: bool) {
    || (now == was && (enough || (|ControlPlanes(g)| < expected && |Available(g)| < expected)))
    || exists x :: x != OtherFailure && now == was + [x] && !enough
  }

  lemma TriedSays(f: Fleet, g: Fleet, expected: nat, was: seq<Failure>, now: seq<Failure>, r: Tried<bool>)
    requires BudgetTried(f, g, expected, was, now, r)
    ensures r.Done? || r == Raised(OtherFailure)
    ensures r.Raised? ==> now == was + [OtherFailure]
    ensures r.Done? ==> DoneAfter(g, expected, was, now, r.value)
  {
    hide AllHaveBoot, ControlPlanes, Available, SmallestPlaced;
  }

  class EtcdMemberKubernetesControlPlane {
    const api: Api
    const expected: nat

    constructor (api: Api, expected: nat)
      ensures this.api == api && this.expected == expected
    {
      this.api, this.expected := api, expected;
    }

    /** Posting the control plane roles for each MAC of the list, in order. */
    method PostEach(macs: seq<string>, ghost files: map<(Marker, nat), string>) returns (r: Tried<bool>)
      requires Valid(api.repo.db.committed)
      modifies api.repo.db, api`failures
      ensures Valid(api.repo.db.committed)
      ensures api.failures == old(api.failures) + (if r.Raised? then [r.failure] else [])
      ensures Reaches(expected, StateOf(old(api.repo.db.committed), PostingControlPlanes(macs), files),
                      StateOf(api.repo.db.committed, if r.Done? then NodesDue else Idle, files))
      ensures r == Done(true) || r.Raised?
      ensures api.reliable ==> r.Done?
      ensures r.Done? ==> View(api.repo.db.committed) == PostAll(old(View(api.repo.db.committed)), macs, CONTROL_PLANE_ROLES)
    {
      hide *;
      ghost var s0 := StateOf(api.repo.db.committed, PostingControlPlanes(macs), files);
      ReachesItself(expected, s0);
      var todo := macs;
      while todo != []
        invariant Valid(api.repo.db.committed) && api.failures == old(api.failures)
        invariant Reaches(expected, s0, StateOf(api.repo.db.committed, PostingControlPlanes(todo), files))
        invariant PostAll(View(api.repo.db.committed), todo, CONTROL_PLANE_ROLES) == PostAll(old(View(api.repo.db.committed)), macs, CONTROL_PLANE_ROLES)
        decreases |todo|
      {
        ghost var before := api.repo.db.committed;
        var reply, o := api.PostSchedule(todo[0], CONTROL_PLANE_ROLES);
        FailuresAre(old(api.failures), reply);
        PostIsStep(expected, before, api.repo.db.committed, todo, files, o);
        ghost var after := StateOf(api.repo.db.committed, if o == Returned then PostingControlPlanes(todo[1..]) else Idle, files);
        ReachesNext(expected, s0, StateOf(before, PostingControlPlanes(todo), files), PostControlPlane(o), after);
        if reply.Failed? {
          return Raised(reply.failure);
        }
        PostAllFirst(View(before), todo, CONTROL_PLANE_ROLES);
        PostedReturned(View(before), todo[0], CONTROL_PLANE_ROLES);
        todo := todo[1..];
      }
      PostedAll(expected, s0, api.repo.db.committed, files);
      r := Done(true);
    }

    /** `__apply_available_budget`. */
    method ApplyAvailableBudget(ghost files: map<(Marker, nat), string>) returns (r: Tried<bool>)
      requires Valid(api.repo.db.committed)
      requires |ControlPlanes(View(api.repo.db.committed))| < expected
      modifies api.repo.db, api`failures
      ensures Valid(api.repo.db.committed)
      ensures if api.failures == old(api.failures) then r == Done(|Available(old(View(api.repo.db.committed)))| >= expected)
              else api.failures == old(api.failures) + [if r.Raised? then r.failure else NoConnection] && r != Done(true)
      ensures Reaches(expected, StateOf(old(api.repo.db.committed), Short, files),
                      StateOf(api.repo.db.committed, if r == Done(true) then NodesDue else Idle, files))
      ensures !r.NoTry?
      ensures api.reliable ==> r == Done(|Available(old(View(api.repo.db.committed)))| >= expected)
      ensures r == Done(true) ==> SmallestPlaced(old(View(api.repo.db.committed)), View(api.repo.db.committed), expected, CONTROL_PLANE_ROLES)
      ensures r == Done(false) ==> api.repo.db.committed == old(api.repo.db.committed)
    {
      hide *;
      ghost var s0 := StateOf(api.repo.db.committed, Short, files);
      ReachesItself(expected, s0);
      StopFrom(expected, s0, api.repo.db.committed, Short, files);
      var list, us, complete := FetchAvailable(api);
      if list.Failed? {
        return Raised(list.failure);
      }
      if complete { ListedLength(View(api.repo.db.committed), us, list.value); }
      if |list.value| >= expected {
        var sorted := InOrder(list.value);
        var macs := MacList(sorted)[..expected];
        FetchIsStep(expected, api.repo.db.committed, us, list.value, files);
        ReachesNext(expected, s0, s0, FetchForControlPlanes(us, list.value), StateOf(api.repo.db.committed, PostingControlPlanes(macs), files));
        ghost var f := View(api.repo.db.committed);
        var posted := PostEach(macs, files);
        ReachesOn(expected, s0, StateOf(old(api.repo.db.committed), PostingControlPlanes(macs), files),
                  StateOf(api.repo.db.committed, if posted.Done? then NodesDue else Idle, files));
        if posted.Done? { PlacedByListing(f, View(api.repo.db.committed), us, list.value, expected, CONTROL_PLANE_ROLES); }
        return posted;
      }
      r := Done(false);
    }

    /** `_apply_budget`: True when there are enough or enough were placed; a missing
        connection or a page that is not JSON reads as False. */
    method ApplyBudget(ghost files: map<(Marker, nat), string>) returns (r: Tried<bool>)
      requires Valid(api.repo.db.committed)
      modifies api.repo.db, api`failures, api`queries
      ensures Valid(api.repo.db.committed) && api.queries == old(api.queries) + multiset{CONTROL_PLANE_ROLES}
      ensures BudgetTried(old(View(api.repo.db.committed)), View(api.repo.db.committed), expected, old(api.failures), api.failures, r)
      ensures Reaches(expected, StateOf(old(api.repo.db.committed), Idle, files),
                      StateOf(api.repo.db.committed, if r == Done(true) then NodesDue else Idle, files))
      ensures !r.NoTry?
      ensures api.reliable ==> BudgetMet(old(View(api.repo.db.committed)), View(api.repo.db.committed), expected, r)
    {
      hide *;
      ghost var s0 := StateOf(api.repo.db.committed, Idle, files);
      ghost var f := View(api.repo.db.committed);
      RoleHostsNamed(f);
      ghost var known := api.failures;
      ReachesItself(expected, s0);
      var done, us := api.GetByRoles(CONTROL_PLANE_ROLES);
      FailuresAre(known, done);
      if done.Failed? {
        if api.reliable { BudgetUnread(f, expected); }
        r := if done.failure == OtherFailure then Raised(OtherFailure) else Done(false);
        TriedFailing(f, f, expected, known, done.failure, r);
        return;
      }
      CountedAll(f, ControlPlanes(f), us, done.value);
      CountIsStep(expected, api.repo.db.committed, files);
      if |done.value| < expected {
        ReachesNext(expected, s0, s0, CountControlPlanes, StateOf(api.repo.db.committed, Short, files));
        r := ApplyAvailableBudget(files);
        ReachesOn(expected, s0, StateOf(old(api.repo.db.committed), Short, files), StateOf(api.repo.db.committed, if r == Done(true) then NodesDue else Idle, files));
        if api.failures == known {
          BudgetShort(f, View(api.repo.db.committed), expected, r);
          TriedQuietly(f, View(api.repo.db.committed), expected, known, r);
        }
        ghost var failed := if r.Raised? then r.failure else NoConnection;
        assert r.Done? ==> r == Done(r.value) && (api.failures != known ==> !r.value);
        assert r.Raised? ==> r == Raised(r.failure);
        if api.reliable { BudgetShort(f, View(api.repo.db.committed), expected, r); }
        if r.Raised? && r.failure != OtherFailure {
          r := Done(false);
        }
        if api.failures != known { TriedFailing(f, View(api.repo.db.committed), expected, known, failed, r); }
      } else {
        ReachesNext(expected, s0, s0, CountControlPlanes, StateOf(api.repo.db.committed, NodesDue, files));
        BudgetThere(f, expected);
        TriedQuietly(f, f, expected, known, Done(true));
        r := Done(true);
      }
    }

    /** `apply`: the same again after any exception but the last. */
    method Apply(nbTry: nat, ghost files: map<(Marker, nat), string>) returns (r: Tried<bool>, ghost tries: nat)
      requires Valid(api.repo.db.committed)
      modifies api.repo.db, api`failures, api`queries
      ensures Valid(api.repo.db.committed)
      ensures Reaches(expected, StateOf(old(api.repo.db.committed), Idle, files),
                      StateOf(api.repo.db.committed, if r == Done(true) then NodesDue else Idle, files))
      ensures r.NoTry? <==> nbTry == 0
      ensures tries <= nbTry && (r.Raised? ==> tries == nbTry) && (r.Done? ==> tries > 0)
      ensures api.queries == old(api.queries) + Times(CONTROL_PLANE_ROLES, tries)
      ensures r.Raised? ==> r.failure == OtherFailure && api.failures == old(api.failures) + Others(nbTry)
      ensures r.Done? ==> DoneAfter(View(api.repo.db.committed), expected, old(api.failures) + Others(tries - 1), api.failures, r.value)
      ensures api.reliable && nbTry > 0 ==> BudgetMet(old(View(api.repo.db.committed)), View(api.repo.db.committed), expected, r)
    {
      hide *;
      ghost var s0 := StateOf(api.repo.db.committed, Idle, files);
      ReachesItself(expected, s0);
      r, tries := NoTry, 0;
      TimesSay(old(api.queries), CONTROL_PLANE_ROLES, 0);
      OthersSay(old(api.failures), 0);
      for i := 0 to nbTry
        invariant tries == i && api.queries == old(api.queries) + Times(CONTROL_PLANE_ROLES, i) && api.failures == old(api.failures) + Others(i)
        invariant Valid(api.repo.db.committed)
        invariant (r.NoTry? <==> i == 0) && (api.reliable ==> i == 0) && (i == 0 ==> api.repo.db.committed == old(api.repo.db.committed))
        invariant !r.Done? && (r.Raised? ==> r.failure == OtherFailure) && Reaches(expected, s0, StateOf(api.repo.db.committed, Idle, files))
      {
        ghost var before, known := api.repo.db.committed, api.failures;
        r := ApplyBudget(files);
        tries := i + 1;
        TimesSay(old(api.queries), CONTROL_PLANE_ROLES, i);
        OthersSay(old(api.failures), i);
        if api.reliable { BudgetEnds(View(before), View(api.repo.db.committed), expected, r); }
        TriedSays(View(before), View(api.repo.db.committed), expected, known, api.failures, r);
        ReachesOn(expected, s0, StateOf(before, Idle, files), StateOf(api.repo.db.committed, if r == Done(true) then NodesDue else Idle, files));
        if r.Done? { return; }
      }
    }
  }

  // ---------- the node pass ----------

  /** Where the plan stands after a node POST. */
  function NodePhase(r: Reply<()>, todo: seq<string>): Phase
    requires todo != []
  {
    if r.Got? then PostingNodes(todo[1..]) else if r.failure == NoConnection then SyncDue else NodesDue
  }

  lemma NodePostIsStep(expected: nat, t: Tables, s: Tables, todo: seq<string>, files: map<(Marker, nat), string>, o: Outcome, r: Reply<()>)
    requires todo != [] && View(s) == Posted(View(t), todo[0], NODE_ROLES, o) && (r.Got? <==> o == Returned)
    ensures var a, b, ev := StateOf(t, PostingNodes(todo), files), StateOf(s, NodePhase(r, todo), files), PostNode(o, NodePhase(r, todo));
      Step(expected, a, ev, b) && Orderly(a, ev)
  {
    hide View, Posted;
  }

  lemma NodesPostedAll(expected: nat, s0: State, t: Tables, files: map<(Marker, nat), string>)
    requires Reaches(expected, s0, StateOf(t, PostingNodes([]), files))
    ensures Reaches(expected, s0, StateOf(t, SyncDue, files))
    ensures PostAll(View(t), [], NODE_ROLES) == View(t)
  {
    hide View, Reaches;
    ReachesNext(expected, s0, StateOf(t, PostingNodes([]), files), NodesPosted, StateOf(t, SyncDue, files));
  }

  lemma SkipNodes(expected: nat, s0: State, t: Tables, phase: Phase, files: map<(Marker, nat), string>)
    requires Reaches(expected, s0, StateOf(t, phase, files)) && phase in {NodesDue, NodesCounted}
    ensures Reaches(expected, s0, StateOf(t, SyncDue, files))
    ensures Reaches(expected, s0, StateOf(t, NodesDue, files))
  {
    hide View, Reaches;
    ReachesNext(expected, s0, StateOf(t, phase, files), NodesSkipped, StateOf(t, SyncDue, files));
    if phase == NodesCounted {
      ReachesNext(expected, s0, StateOf(t, phase, files), Retried, StateOf(t, NodesDue, files));
    }
  }

  lemma CountNodesIsStep(expected: nat, t: Tables, files: map<(Marker, nat), string>)
    requires AllHaveBoot(View(t), Nodes(View(t)))
    ensures var a, b := StateOf(t, NodesDue, files), StateOf(t, NodesCounted, files);
      Step(expected, a, CountNodes, b) && Orderly(a, CountNodes)
  {
    hide View, AllHaveBoot, Nodes;
  }

  lemma FetchNodesIsStep(expected: nat, t: Tables, us: seq<string>, listed: seq<Nic>, files: map<(Marker, nat), string>)
    requires Enumerates(us, Available(View(t))) && AnyNics(View(t), us, listed)
    ensures var a, b := StateOf(t, NodesCounted, files), StateOf(t, PostingNodes(MacList(InOrder(listed))), files);
      Step(expected, a, FetchForNodes(us, listed), b) && Orderly(a, FetchForNodes(us, listed))
  {
    hide View, Available, AnyNics, Enumerates, InOrder;
  }

  ghost predicate EverythingPlaced(f: Fleet, g: Fleet, r: Tried<nat>) {
    if !AllHaveBoot(f, Nodes(f)) then r == Raised(NotJson) && g == f
    else r == Done(|Nodes(f)| + |Available(f)|) && SmallestPlaced(f, g, |Available(f)|, NODE_ROLES)
  }

  lemma EverythingUnread(f: Fleet)
    requires !AllHaveBoot(f, Nodes(f))
    ensures EverythingPlaced(f, f, Raised(NotJson))
  {}

  lemma EverythingRead(f: Fleet, g: Fleet, us: seq<string>, listed: seq<Nic>, n: nat)
    requires AllHaveBoot(f, Nodes(f)) && n == |Nodes(f)| + |listed|
    requires Enumerates(us, Available(f)) && AnyNics(f, us, listed) && g == PostAll(f, MacList(InOrder(listed)), NODE_ROLES)
    ensures EverythingPlaced(f, g, Done(n))
  {
    hide AllHaveBoot, Enumerates, Available, AnyNics, InOrder, PostAll, Nodes, SmallestPlaced;
    ListedLength(f, us, listed);
    WholeList(InOrder(listed));
    PlacedByListing(f, g, us, listed, |listed|, NODE_ROLES);
  }

  lemma WholeList(l: seq<Nic>)
    ensures MacList(l)[..|l|] == MacList(l)
  {}

  lemma NothingPosted(f: Fleet, l: seq<Nic>)
    requires l == []
    ensures PostAll(f, MacList(InOrder(l)), NODE_ROLES) == f
  {}

  /** What one try comes to, given the replies that failed meanwhile: none, and it does its
      work; a missing connection, which ends it with 0, or with the nodes there are if it was
      the list of available machines that could not be fetched; or another, passed on as an
      exception. */
  ghost predicate EverythingTried(f: Fleet, g: Fleet, was: seq<Failure>, now: seq<Failure>, r: Tried<nat>) {
    || (now == was && r.Done? && EverythingPlaced(f, g, r))
    || (now == was + [NoConnection] && (r == Done(0) || (r == Done(|Nodes(f)|) && g == f)))
    || exists x :: x != NoConnection && now == was + [x] && r == Raised(x)
  }

  lemma NodesQuietly(f: Fleet, g: Fleet, was: seq<Failure>, r: Tried<nat>)
    requires EverythingPlaced(f, g, r) && r.Done?
    ensures EverythingTried(f, g, was, was, r)
  {}

  lemma NodesFailing(f: Fleet, g: Fleet, was: seq<Failure>, x: Failure, r: Tried<nat>)
    requires if x == NoConnection then r == Done(0) || (r == Done(|Nodes(f)|) && g == f) else r == Raised(x)
    ensures EverythingTried(f, g, was, was + [x], r)
  {}

  /** That many tries each ended with a failed reply that is no missing connection; a try
      that is finished may have had a missing connection. */
  ghost predicate FailedTries(was: seq<Failure>, now: seq<Failure>, tries: nat, finished: bool) {
    exists xs: seq<Failure> ::
      && |xs| == tries && (forall i :: 0 <= i < tries ==> xs[i] != NoConnection)
      && (now == was + xs || (finished && now == was + xs + [NoConnection]))
  }

  class KubernetesNode {
    const api: Api
    ghost const expected: nat

    constructor (api: Api, ghost expected: nat)
      ensures this.api == api && this.expected == expected
    {
      this.api, this.expected := api, expected;
    }

    /** Posting the node role for each MAC of the list; `done` counts the posts. */
    method PostEach(macs: seq<string>, done: nat, ghost files: map<(Marker, nat), string>) returns (r: Tried<nat>)
      requires Valid(api.repo.db.committed)
      modifies api.repo.db, api`failures
      ensures Valid(api.repo.db.committed)
      ensures api.failures == old(api.failures) + (if r.Raised? then [r.failure] else [])
      ensures Reaches(expected, StateOf(old(api.repo.db.committed), PostingNodes(macs), files),
                      StateOf(api.repo.db.committed, if r.Raised? && r.failure != NoConnection then NodesDue else SyncDue, files))
      ensures r == Done(done + |macs|) || r.Raised?
      ensures api.reliable ==> r.Done?
      ensures r.Done? ==> View(api.repo.db.committed) == PostAll(old(View(api.repo.db.committed)), macs, NODE_ROLES)
    {
      hide Valid, View, Reaches, Step, Orderly, PostAll, Posted, Schedule;
      ghost var s0 := StateOf(api.repo.db.committed, PostingNodes(macs), files);
      ReachesItself(expected, s0);
      var todo, count := macs, done;
      while todo != []
        invariant Valid(api.repo.db.committed) && api.failures == old(api.failures)
        invariant count + |todo| == done + |macs|
        invariant Reaches(expected, s0, StateOf(api.repo.db.committed, PostingNodes(todo), files))
        invariant PostAll(View(api.repo.db.committed), todo, NODE_ROLES) == PostAll(old(View(api.repo.db.committed)), macs, NODE_ROLES)
        decreases |todo|
      {
        ghost var before := api.repo.db.committed;
        var reply, o := api.PostSchedule(todo[0], NODE_ROLES);
        FailuresAre(old(api.failures), reply);
        NodePostIsStep(expected, before, api.repo.db.committed, todo, files, o, reply);
        ReachesNext(expected, s0, StateOf(before, PostingNodes(todo), files), PostNode(o, NodePhase(reply, todo)),
                    StateOf(api.repo.db.committed, NodePhase(reply, todo), files));
        if reply.Failed? {
          return Raised(reply.failure);
        }
        PostAllFirst(View(before), todo, NODE_ROLES);
        PostedReturned(View(before), todo[0], NODE_ROLES);
        todo, count := todo[1..], count + 1;
      }
      NodesPostedAll(expected, s0, api.repo.db.committed, files);
      r := Done(count);
    }

    /** `_apply_everything`: the number of nodes there were plus the number posted; 0 when
        a connection is missing. */
    method ApplyEverything(ghost files: map<(Marker, nat), string>) returns (r: Tried<nat>)
      requires Valid(api.repo.db.committed)
      modifies api.repo.db, api`failures, api`queries
      ensures Valid(api.repo.db.committed) && api.queries == old(api.queries) + multiset{NODE_ROLES}
      ensures EverythingTried(old(View(api.repo.db.committed)), View(api.repo.db.committed), old(api.failures), api.failures, r)
      ensures Reaches(expected, StateOf(old(api.repo.db.committed), NodesDue, files),
                      StateOf(api.repo.db.committed, if r.Done? then SyncDue else NodesDue, files))
      ensures !r.NoTry?
      ensures api.reliable ==> EverythingPlaced(old(View(api.repo.db.committed)), View(api.repo.db.committed), r)
    {
      hide *;
      ghost var t, known := api.repo.db.committed, api.failures;
      ghost var s0, f := StateOf(t, NodesDue, files), View(t);
      RoleHostsNamed(f);
      ReachesItself(expected, s0);
      SkipNodes(expected, s0, t, NodesDue, files);
      var had, us0 := api.GetByRoles(NODE_ROLES);
      FailuresAre(known, had);
      if had.Failed? {
        if api.reliable { EverythingUnread(f); }
        r := if had.failure == NoConnection then Done(0) else Raised(had.failure);
        NodesFailing(f, f, known, had.failure, r);
        return;
      }
      CountedAll(f, Nodes(f), us0, had.value);
      CountNodesIsStep(expected, t, files);
      ReachesNext(expected, s0, s0, CountNodes, StateOf(t, NodesCounted, files));
      SkipNodes(expected, s0, t, NodesCounted, files);
      var list, us, complete := FetchAvailable(api);
      if list.Failed? {
        NodesFailing(f, f, known, list.failure, Raised(list.failure));
        return Raised(list.failure);
      }
      if list.value == [] {
        NothingPosted(f, list.value);
        r := Done(|had.value|);
        if complete {
          EverythingRead(f, f, us, list.value, |had.value|);
          NodesQuietly(f, f, known, r);
        } else {
          NodesFailing(f, f, known, NoConnection, r);
        }
        return;
      }
      var macs := MacList(InOrder(list.value));
      FetchNodesIsStep(expected, t, us, list.value, files);
      ReachesNext(expected, s0, StateOf(t, NodesCounted, files), FetchForNodes(us, list.value), StateOf(t, PostingNodes(macs), files));
      r := PostEach(macs, |had.value|, files);
      ReachesOn(expected, s0, StateOf(t, PostingNodes(macs), files),
                StateOf(api.repo.db.committed, if r.Raised? && r.failure != NoConnection then NodesDue else SyncDue, files));
      if r.Done? {
        EverythingRead(f, View(api.repo.db.committed), us, list.value, r.value);
        NodesQuietly(f, View(api.repo.db.committed), known, r);
      } else {
        ghost var failed := r.failure;
        if r.failure == NoConnection {
          r := Done(0);
        }
        NodesFailing(f, View(api.repo.db.committed), known, failed, r);
      }
    }

    /** `apply`: the same again after any exception but the last. */
    method Apply(nbTry: nat, ghost files: map<(Marker, nat), string>) returns (r: Tried<nat>, ghost tries: nat)
      requires Valid(api.repo.db.committed)
      modifies api.repo.db, api`failures, api`queries
      ensures Valid(api.repo.db.committed)
      ensures Reaches(expected, StateOf(old(api.repo.db.committed), NodesDue, files),
                      StateOf(api.repo.db.committed, if r.Done? then SyncDue else NodesDue, files))
      ensures r.NoTry? <==> nbTry == 0
      ensures tries <= nbTry && (r.Raised? ==> tries == nbTry) && (r.Done? ==> tries > 0)
      ensures api.queries == old(api.queries) + Times(NODE_ROLES, tries)
      ensures FailedTries(old(api.failures), api.failures, if r.Done? then tries - 1 else tries, r.Done?)
      ensures api.reliable && nbTry > 0 ==> EverythingPlaced(old(View(api.repo.db.committed)), View(api.repo.db.committed), r)
    {
      hide *;
      ghost var f := View(api.repo.db.committed);
      ghost var s0 := StateOf(api.repo.db.committed, NodesDue, files);
      ReachesItself(expected, s0);
      r, tries := NoTry, 0;
      TimesSay(old(api.queries), NODE_ROLES, 0);
      NoTriesFailed(api.failures);
      for i := 0 to nbTry
        invariant tries == i && api.queries == old(api.queries) + Times(NODE_ROLES, i) && FailedTries(old(api.failures), api.failures, i, false)
        invariant Valid(api.repo.db.committed)
        invariant !r.Done? && (r.NoTry? <==> i == 0)
        invariant Reaches(expected, s0, StateOf(api.repo.db.committed, NodesDue, files))
        invariant api.reliable ==> View(api.repo.db.committed) == f
        invariant api.reliable && i > 0 ==> EverythingPlaced(f, View(api.repo.db.committed), r)
      {
        ghost var before, known := api.repo.db.committed, api.failures;
        r := ApplyEverything(files);
        tries := i + 1;
        TimesSay(old(api.queries), NODE_ROLES, i);
        OneMoreTry(View(before), View(api.repo.db.committed), old(api.failures), known, api.failures, i, r);
        ReachesOn(expected, s0, StateOf(before, NodesDue, files), StateOf(api.repo.db.committed, if r.Done? then SyncDue else NodesDue, files));
        if r.Done? { return; }
        if api.reliable { RaisedUnchanged(f, View(api.repo.db.committed), r); }
      }
    }
  }

  lemma NoTriesFailed(was: seq<Failure>)
    ensures FailedTries(was, was, 0, false)
  {}

  lemma OneMoreTry(f: Fleet, g: Fleet, was: seq<Failure>, known: seq<Failure>, now: seq<Failure>, i: nat, r: Tried<nat>)
    requires FailedTries(was, known, i, false) && EverythingTried(f, g, known, now, r) && !r.NoTry?
    ensures if r.Done? then FailedTries(was, now, i, true) else FailedTries(was, now, i + 1, false)
  {
    hide EverythingPlaced, Nodes;
    var xs: seq<Failure> :| |xs| == i && (forall k :: 0 <= k < i ==> xs[k] != NoConnection) && known == was + xs;
    if r.Raised? {
      var ys := xs + [r.failure];
      assert now == was + ys && forall k :: 0 <= k < i + 1 ==> ys[k] != NoConnection;
    }
  }

  lemma RaisedUnchanged(f: Fleet, g: Fleet, r: Tried<nat>)
    requires EverythingPlaced(f, g, r) && !r.Done?
    ensures g == f
  {}
}