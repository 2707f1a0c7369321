/** Runs of the plan whose reports are orderly: what holds in them, and that the bound on
    control planes is reached. */
module PlanSafety {
  import opened Prelude
  import opened Machines
  import opened Queries
  import opened Scheduling
  import opened PlanRun

  /** A run with orderly reports: any events, in any order, with faults anywhere, each taking
      one state to the next. */
  ghost predicate Run(expected: nat, ss: seq<State>, evs: seq<Event>) {
    && |ss| == |evs| + 1
    && forall i :: 0 <= i < |evs| ==> Step(expected, ss[i], evs[i], ss[i + 1]) && Orderly(ss[i], evs[i])
  }

  /** An empty database and no group files. */
  const INITIAL: State := State(EMPTY_FLEET, Idle, map[])

  lemma RunStep(expected: nat, ss: seq<State>, evs: seq<Event>, k: nat)
    requires Run(expected, ss, evs) && k + 1 < |ss|
    ensures |evs| == |ss| - 1 && Step(expected, ss[k], evs[k], ss[k + 1]) && Orderly(ss[k], evs[k])
  {}

  lemma {:induction false} RunKeepsInv(expected: nat, ss: seq<State>, evs: seq<Event>, k: nat)
    requires Run(expected, ss, evs) && Inv(expected, ss[0]) && k < |ss|
    ensures Inv(expected, ss[k])
  {
    hide *;
    if k > 0 {
      RunKeepsInv(expected, ss, evs, k - 1);
      RunStep(expected, ss, evs, k - 1);
      StepKeeps(expected, ss[k - 1], evs[k - 1], ss[k]);
    }
  }

  /** Every state of every such run from an empty database: at most 2 * expected - 1 control
      planes, roles only in whole bundles without a repeated row, and a node only beside
      at least the expected number of control planes. */
  lemma EveryRunIsSafe(expected: nat, ss: seq<State>, evs: seq<Event>, k: nat)
    requires Run(expected, ss, evs) && ss[0] == INITIAL && k < |ss|
    ensures |ControlPlanes(ss[k].fleet)| == 0 || |ControlPlanes(ss[k].fleet)| <= 2 * expected - 1
    ensures forall u :: u in ss[k].fleet.hosts ==>
              var roles := ss[k].fleet.hosts[u].roles;
              roles == multiset{} || roles == multiset{EtcdMember, KubernetesControlPlane} || roles == multiset{KubernetesNode}
    ensures Nodes(ss[k].fleet) != {} ==> |ControlPlanes(ss[k].fleet)| >= expected
    ensures Coherent(ss[k].fleet)
  {
    RunKeepsInv(expected, ss, evs, k);
  }

  // ---------- roles only grow ----------

  ghost predicate Grows(f: Fleet, g: Fleet) {
    ControlPlanes(f) <= ControlPlanes(g) && Nodes(f) <= Nodes(g)
  }

  lemma PostGrows(f: Fleet, todo: seq<string>, roles: seq<Role>)
    requires Coherent(f) && RolePartition(f) && Pending(f, todo) && todo != []
    requires roles == CONTROL_PLANE_ROLES || roles == NODE_ROLES
    ensures Grows(f, Schedule(f, todo[0], roles))
  {
    hide Coherent, RolePartition, Pending, OwnedBy, HasNoRole, Schedule, ControlPlanes, Nodes;
    var u := OwnerWanted(f, todo);
    PostBundle(f, u, todo[0], roles);
  }

  lemma StepGrows(expected: nat, s: State, ev: Event, t: State)
    requires Inv(expected, s) && Step(expected, s, ev, t)
    ensures Grows(s.fleet, t.fleet)
  {
    assert Grows(s.fleet, s.fleet);
    match ev {
      case Discovery(p) =>
        DiscoveryKeepsSets(s.fleet, p);
        hide Coherent, RolePartition, ControlPlanes, Nodes, Discover;
      case PostControlPlane(_) =>
        PostGrows(s.fleet, s.phase.todo, CONTROL_PLANE_ROLES);
        hide Grows, Inv;
      case PostNode(_, _) =>
        PostGrows(s.fleet, s.phase.todo, NODE_ROLES);
        hide Grows, Inv;
      case _ =>
        hide Inv, Grows;
    }
  }

  // ---------- the bound is reached ----------

  ghost predicate AllBoot(f: Fleet) {
    forall u :: u in f.hosts ==> HasBoot(f.hosts[u])
  }

  lemma PostTakes(f: Fleet, todo: seq<string>)
    requires Coherent(f) && RolePartition(f) && Pending(f, todo) && todo != []
    ensures |Available(Schedule(f, todo[0], CONTROL_PLANE_ROLES))| >= |Available(f)| - 1
    ensures AllBoot(f) ==> AllBoot(Schedule(f, todo[0], CONTROL_PLANE_ROLES))
  {
    hide *;
    var u := OwnerWanted(f, todo);
    PostBundle(f, u, todo[0], CONTROL_PLANE_ROLES);
    OneFewer(f, Schedule(f, todo[0], CONTROL_PLANE_ROLES), u, AddRoles(f.hosts[u], CONTROL_PLANE_ROLES));
  }

  lemma OneFewer(f: Fleet, g: Fleet, u: string, h: Host)
    requires u in f.hosts && g.hosts == f.hosts[u := h] && h.nics == f.hosts[u].nics
    ensures |Available(g)| >= |Available(f)| - 1 && (AllBoot(f) ==> AllBoot(g))
  {
    assert HasBoot(f.hosts[u]) ==> HasBoot(h);
    hide HasBoot;
    assert Available(f) - {u} <= Available(g);
    hide Available;
    SubsetIsSmaller(Available(f) - {u}, Available(g));
  }

  /** The fetch of a plan that has too few control planes, with some order of the rows. */
  lemma SomeListing(f: Fleet) returns (us: seq<string>, listed: seq<Nic>)
    ensures Enumerates(us, Available(f)) && AnyNics(f, us, listed) && |listed| == |Available(f)|
  {
    us := SomeOrder(Available(f));
    forall i | 0 <= i < |us| ensures us[i] in Available(f) {
      assert us[i] in us;
    }
    listed := seq(|us|, i requires 0 <= i < |us| => BootNic(f.hosts[us[i]]));
  }

  /** The process goes on and the answer of a POST arrives. */
  ghost predicate NoFault(ev: Event) {
    !ev.GiveUp? && (ev.PostControlPlane? || ev.PostNode? ==> ev.outcome == Returned)
  }

  ghost predicate Plain(ev: Event) {
    NoFault(ev) && !ev.Discovery?
  }

  ghost predicate AllPlain(evs: seq<Event>) {
    forall i :: 0 <= i < |evs| ==> Plain(evs[i])
  }

  /** All events are plain but one, a POST lost before it took effect. */
  ghost predicate OneLost(evs: seq<Event>, lost: nat) {
    && lost < |evs| && evs[lost] == PostControlPlane(Lost(false))
    && forall i :: 0 <= i < |evs| && i != lost ==> Plain(evs[i])
  }

  lemma PlainJoin(a: seq<Event>, b: seq<Event>)
    ensures AllPlain(a) && AllPlain(b) ==> AllPlain(a + b)
  {
    hide Plain;
  }

  lemma LostJoin(a: seq<Event>, b: seq<Event>, lost: nat)
    requires OneLost(a, lost) && AllPlain(b)
    ensures OneLost(a + b, lost)
  {
    hide Plain;
  }

  lemma LostLast(a: seq<Event>)
    requires AllPlain(a)
    ensures OneLost(a + [PostControlPlane(Lost(false))], |a|)
  {
    hide Plain;
  }

  lemma PlainThen(a: seq<Event>, b: seq<Event>, lost: nat)
    requires AllPlain(a) && OneLost(b, lost)
    ensures OneLost(a + b, |a| + lost)
  {
    hide Plain;
    forall i | 0 <= i < |a + b| && i != |a| + lost ensures Plain((a + b)[i]) {
      if i >= |a| { assert (a + b)[i] == b[i - |a|]; }
    }
  }

  /** Posting the first m of a list, every answer arriving. */
  lemma {:induction false} PostMany(expected: nat, s: State, m: nat) returns (ss: seq<State>, evs: seq<Event>)
    requires Inv(expected, s) && s.phase.PostingControlPlanes? && m <= |s.phase.todo|
    ensures Run(expected, ss, evs) && ss[0] == s && AllPlain(evs)
    ensures var t := ss[|ss| - 1];
      && t.phase == PostingControlPlanes(s.phase.todo[m..]) && Inv(expected, t)
      && |ControlPlanes(t.fleet)| == |ControlPlanes(s.fleet)| + m
      && |Available(t.fleet)| >= |Available(s.fleet)| - m
      && (AllBoot(s.fleet) ==> AllBoot(t.fleet))
  {
    if m == 0 {
      ss, evs := [s], [];
      assert s.phase.todo[0..] == s.phase.todo;
    } else {
      var before, done := PostMany(expected, s, m - 1);
      var mid := before[|before| - 1];
      assert mid.phase.todo[1..] == s.phase.todo[m..];
      var t := OnePost(expected, mid, Returned);
      ss, evs := before + [t], done + [PostControlPlane(Returned)];
      hide *;
      RunExtends(expected, before, done, PostControlPlane(Returned), t);
      PlainReturned();
      PlainJoin(done, [PostControlPlane(Returned)]);
    }
  }

  lemma PlainReturned()
    ensures AllPlain([PostControlPlane(Returned)])
  {}

  lemma OnePost(expected: nat, s: State, o: Outcome) returns (t: State)
    requires Inv(expected, s) && s.phase.PostingControlPlanes? && s.phase.todo != []
    ensures Step(expected, s, PostControlPlane(o), t) && Orderly(s, PostControlPlane(o)) && Inv(expected, t)
    ensures t.phase == if o == Returned then PostingControlPlanes(s.phase.todo[1..]) else Idle
    ensures |ControlPlanes(t.fleet)| == |ControlPlanes(s.fleet)| + (if o == Lost(false) then 0 else 1)
    ensures |Available(t.fleet)| >= |Available(s.fleet)| - (if o == Lost(false) then 0 else 1)
    ensures AllBoot(s.fleet) ==> AllBoot(t.fleet)
  {
    t := State(Posted(s.fleet, s.phase.todo[0], CONTROL_PLANE_ROLES, o),
               if o == Returned then PostingControlPlanes(s.phase.todo[1..]) else Idle, s.files);
    StepKeeps(expected, s, PostControlPlane(o), t);
    PostEffect(s.fleet, s.phase.todo, CONTROL_PLANE_ROLES, o);
    PostTakes(s.fleet, s.phase.todo);
    hide Inv, ControlPlanes, Available, Schedule, Coherent, RolePartition, Pending, AllBoot;
  }

  lemma RunNothing(expected: nat, s: State)
    ensures Run(expected, [s], [])
  {}

  lemma RunExtends(expected: nat, ss: seq<State>, evs: seq<Event>, ev: Event, t: State)
    requires Run(expected, ss, evs) && Step(expected, ss[|ss| - 1], ev, t) && Orderly(ss[|ss| - 1], ev)
    ensures Run(expected, ss + [t], evs + [ev])
  {
    hide Step, Orderly;
  }

  lemma RunsJoin(expected: nat, ss: seq<State>, evs: seq<Event>, tt: seq<State>, fvs: seq<Event>)
    requires Run(expected, ss, evs) && Run(expected, tt, fvs) && ss[|ss| - 1] == tt[0]
    ensures Run(expected, ss + tt[1..], evs + fvs)
    ensures (ss + tt[1..])[0] == ss[0] && (ss + tt[1..])[|ss| + |tt| - 2] == tt[|tt| - 1]
  {
    hide Step, Orderly;
    var all := ss + tt[1..];
    forall i | 0 <= i < |evs| + |fvs|
      ensures Step(expected, all[i], (evs + fvs)[i], all[i + 1]) && Orderly(all[i], (evs + fvs)[i])
    {
      if i >= |evs| {
        assert all[i] == tt[i - |evs|] && all[i + 1] == tt[i - |evs| + 1] && (evs + fvs)[i] == fvs[i - |evs|];
      }
    }
  }

  lemma CountShort(expected: nat, s: State) returns (t: State)
    requires Inv(expected, s) && s.phase == Idle && AllBoot(s.fleet) && |ControlPlanes(s.fleet)| < expected
    ensures Step(expected, s, CountControlPlanes, t) && Orderly(s, CountControlPlanes)
    ensures Inv(expected, t) && t == s.(phase := Short)
  {
    t := s.(phase := Short);
    assert AllHaveBoot(s.fleet, ControlPlanes(s.fleet));
    hide AllHaveBoot, ControlPlanes, Coherent, RolePartition, Pending;
    StepKeeps(expected, s, CountControlPlanes, t);
  }

  lemma QuietIsOrderly(s: State, ev: Event)
    requires !ev.Discovery?
    ensures Orderly(s, ev)
  {}

  lemma ShortFetches(expected: nat, s: State, us: seq<string>, listed: seq<Nic>)
    requires s.phase == Short && Enumerates(us, Available(s.fleet)) && AnyNics(s.fleet, us, listed) && expected <= |listed|
    ensures Step(expected, s, FetchForControlPlanes(us, listed), s.(phase := PostingControlPlanes(MacList(InOrder(listed))[..expected])))
  {
    hide Enumerates, AnyNics, Available, InOrder;
  }

  lemma FetchEnough(expected: nat, s: State) returns (ev: Event, t: State)
    requires Inv(expected, s) && s.phase == Short && expected <= |Available(s.fleet)|
    ensures Step(expected, s, ev, t) && Orderly(s, ev) && ev.FetchForControlPlanes?
    ensures Inv(expected, t) && t.fleet == s.fleet && t.phase.PostingControlPlanes? && |t.phase.todo| == expected
  {
    hide *;
    var us, listed := SomeListing(s.fleet);
    ev := FetchForControlPlanes(us, listed);
    t := s.(phase := PostingControlPlanes(MacList(InOrder(listed))[..expected]));
    ShortFetches(expected, s, us, listed);
    QuietIsOrderly(s, ev);
    StepKeeps(expected, s, ev, t);
  }

  lemma PlainFetch(ev: Event)
    ensures ev.FetchForControlPlanes? ==> AllPlain([] + [CountControlPlanes] + [ev])
  {}

  /** Counting and fetching when too few control planes exist and enough machines are free. */
  lemma CountAndFetch(expected: nat, s: State) returns (ss: seq<State>, evs: seq<Event>)
    requires Inv(expected, s) && s.phase == Idle && AllBoot(s.fleet)
    requires |ControlPlanes(s.fleet)| < expected <= |Available(s.fleet)|
    ensures Run(expected, ss, evs) && ss[0] == s && AllPlain(evs)
    ensures var t := ss[|ss| - 1];
      Inv(expected, t) && t.fleet == s.fleet && t.phase.PostingControlPlanes? && |t.phase.todo| == expected
  {
    hide *;
    var short := CountShort(expected, s);
    var ev, t := FetchEnough(expected, short);
    RunNothing(expected, s);
    RunExtends(expected, [s], [], CountControlPlanes, short);
    RunExtends(expected, [s] + [short], [] + [CountControlPlanes], ev, t);
    ss, evs := [s] + [short] + [t], [] + [CountControlPlanes] + [ev];
    PlainFetch(ev);
  }

  /** One try whose last POST is lost before it took effect. */
  lemma OneTry(expected: nat, s: State) returns (ss: seq<State>, evs: seq<Event>, lost: nat)
    requires Inv(expected, s) && s.phase == Idle && AllBoot(s.fleet) && ControlPlanes(s.fleet) == {}
    requires 0 < expected && 2 * expected - 1 <= |Available(s.fleet)|
    ensures Run(expected, ss, evs) && ss[0] == s && OneLost(evs, lost)
    ensures var t := ss[|ss| - 1];
      && Inv(expected, t) && t.phase == Idle && AllBoot(t.fleet)
      && |ControlPlanes(t.fleet)| == expected - 1 && |Available(t.fleet)| >= expected
  {
    hide Step, Orderly, Inv, ControlPlanes, Available, AllBoot, AllPlain, OneLost;
    var ss0, evs0 := CountAndFetch(expected, s);
    var a := ss0[|ss0| - 1];
    var ss1, evs1 := PostMany(expected, a, expected - 1);
    var b := ss1[|ss1| - 1];
    var c := OnePost(expected, b, Lost(false));
    RunExtends(expected, ss1, evs1, PostControlPlane(Lost(false)), c);
    RunsJoin(expected, ss0, evs0, ss1 + [c], evs1 + [PostControlPlane(Lost(false))]);
    ss, evs := ss0 + (ss1 + [c])[1..], evs0 + (evs1 + [PostControlPlane(Lost(false))]);
    LostLast(evs1);
    PlainThen(evs0, evs1 + [PostControlPlane(Lost(false))], |evs1|);
    lost := |evs0| + |evs1|;
  }

  /** The bound is tight for every expected number: one lost POST, without any other fault or
      report, is enough to end up with 2 * expected - 1 control planes, given as many machines. */
  lemma BoundIsReached(expected: nat, f: Fleet) returns (ss: seq<State>, evs: seq<Event>, lost: nat)
    requires 0 < expected && Coherent(f) && AllBoot(f) && 2 * expected - 1 <= |f.hosts|
    requires forall u :: u in f.hosts ==> f.hosts[u].roles == multiset{}
    ensures Run(expected, ss, evs) && ss[0] == State(f, Idle, map[]) && OneLost(evs, lost)
    ensures |ControlPlanes(ss[|ss| - 1].fleet)| == 2 * expected - 1
  {
    hide Step, Orderly, Inv, ControlPlanes, Available, AllBoot, Coherent, OneLost, AllPlain;
    var s := State(f, Idle, map[]);
    FreshFleet(expected, f);
    var ss0, evs0, at := OneTry(expected, s);
    var a := ss0[|ss0| - 1];
    var ss1, evs1 := CountAndFetch(expected, a);
    var b := ss1[|ss1| - 1];
    var ss2, evs2 := PostMany(expected, b, expected);
    RunsJoin(expected, ss1, evs1, ss2, evs2);
    RunsJoin(expected, ss0, evs0, ss1 + ss2[1..], evs1 + evs2);
    ss, evs := ss0 + (ss1 + ss2[1..])[1..], evs0 + (evs1 + evs2);
    PlainJoin(evs1, evs2);
    LostJoin(evs0, evs1 + evs2, at);
    lost := at;
  }

  lemma FreshFleet(expected: nat, f: Fleet)
    requires Coherent(f) && AllBoot(f) && forall u :: u in f.hosts ==> f.hosts[u].roles == multiset{}
    ensures Inv(expected, State(f, Idle, map[])) && ControlPlanes(f) == {} && |Available(f)| == |f.hosts|
  {
    forall u | u in f.hosts ensures !RunsControlPlane(f.hosts[u]) && KubernetesNode !in f.hosts[u].roles && HasNoRole(f.hosts[u]) {
      Kinds(f.hosts[u]);
    }
    assert Nodes(f) == {};
    assert Available(f) == f.hosts.Keys;
    hide Coherent, HasBoot, RunsControlPlane, HasNoRole;
  }

  // ---------- what one state can become ----------

  /** Some run leads from s to t. */
  ghost predicate Reaches(expected: nat, s: State, t: State) {
    exists ss, evs :: Run(expected, ss, evs) && ss[0] == s && ss[|ss| - 1] == t
  }

  lemma ReachesItself(expected: nat, s: State)
    ensures Reaches(expected, s, s)
  {
    assert Run(expected, [s], []);
  }

  lemma ReachesNext(expected: nat, s: State, t: State, ev: Event, r: State)
    requires Reaches(expected, s, t) && Step(expected, t, ev, r) && Orderly(t, ev)
    ensures Reaches(expected, s, r)
  {
    var ss, evs :| Run(expected, ss, evs) && ss[0] == s && ss[|ss| - 1] == t;
    hide Step, Orderly;
    RunExtends(expected, ss, evs, ev, r);
    assert (ss + [r])[0] == s && (ss + [r])[|ss + [r]| - 1] == r;
  }

  lemma ReachesOn(expected: nat, s: State, t: State, r: State)
    requires Reaches(expected, s, t) && Reaches(expected, t, r)
    ensures Reaches(expected, s, r)
  {
    var ss, evs :| Run(expected, ss, evs) && ss[0] == s && ss[|ss| - 1] == t;
    var tt, fvs :| Run(expected, tt, fvs) && tt[0] == t && tt[|tt| - 1] == r;
    hide Step, Orderly;
    RunsJoin(expected, ss, evs, tt, fvs);
    assert |ss + tt[1..]| == |ss| + |tt| - 1;
  }

  lemma ReachesSafely(expected: nat, s: State, t: State)
    requires Reaches(expected, s, t) && Inv(expected, s)
    ensures Inv(expected, t)
  {
    var ss, evs :| Run(expected, ss, evs) && ss[0] == s && ss[|ss| - 1] == t;
    hide Inv, Step, Orderly;
    RunKeepsInv(expected, ss, evs, |ss| - 1);
  }
}
