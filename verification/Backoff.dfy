/** The back-off before `RunPod` (the kubelet patch): per pod a register of the last four
    call times, shifted in place, and the hold computed from it. Times are Unix seconds. */
module Backoff {
  import opened Prelude

  const STORED := 4
  const COEFF := 10
  const TRIGGER := COEFF * STORED * 2

  // ---------- what the register and the hold mean ----------

  /** The last four calls, newest first, with zeros where there was none. */
  function Register(calls: seq<nat>): (r: seq<nat>)
    ensures |r| == STORED
  {
    seq(STORED, i requires 0 <= i < STORED => if i < |calls| then calls[|calls| - 1 - i] else 0)
  }

  /** The mean that the code takes: the oldest call counts twice, the newest not at all. */
  function Mean(reg: seq<nat>): nat
    requires |reg| == STORED
  {
    (2 * reg[3] + reg[2] + reg[1]) / STORED
  }

  /** Seconds to hold, before the jitter is added; none while a slot is empty. */
  function Hold(reg: seq<nat>, now: nat, jitter: nat): nat
    requires |reg| == STORED && jitter < COEFF
  {
    if 0 in reg || now >= Mean(reg) + TRIGGER then 0 else (Mean(reg) + TRIGGER - now) + jitter
  }

  /** The division in the log line fails when all slots are empty. */
  predicate Fails(reg: seq<nat>)
    requires |reg| == STORED
  {
    reg == [0, 0, 0, 0]
  }

  // ---------- one pod ----------

  /** A call with four before it is released at least 80 seconds after the fourth last
      one, and held for at most 89. */
  lemma ReleasedLate(calls: seq<nat>, now: nat, jitter: nat)
    requires |calls| >= STORED && jitter < COEFF && NonDecreasing(calls + [now]) && (forall c :: c in calls ==> c > 0)
    ensures now + Hold(Register(calls), now, jitter) >= calls[|calls| - STORED] + TRIGGER
    ensures Hold(Register(calls), now, jitter) <= TRIGGER + COEFF - 1
  {
    var n, reg, all := |calls|, Register(calls), calls + [now];
    assert reg[0] == calls[n - 1] && reg[1] == calls[n - 2] && reg[2] == calls[n - 3] && reg[3] == calls[n - 4];
    assert all[n - 4] <= all[n - 3] <= all[n - 2] <= all[n - 1] <= all[n];
    assert 0 !in reg by {
      assert forall i :: 0 <= i < STORED ==> reg[i] in calls;
    }
    assert calls[n - 4] <= Mean(reg) <= now;
  }

  ghost predicate NonDecreasing(calls: seq<nat>) {
    forall i, j :: 0 <= i <= j < |calls| ==> calls[i] <= calls[j]
  }

  /** The mean that counts is that of the three calls before the last one, the oldest twice;
      a call with four before it is held exactly if it comes less than 80 seconds after
      that, and then until 80 seconds after it and the jitter. */
  lemma HeldIff(calls: seq<nat>, now: nat, jitter: nat)
    requires |calls| >= 4 && jitter < 10 && (forall c :: c in calls ==> c > 0)
    ensures var n := |calls|;
      var mean := (2 * calls[n - 4] + calls[n - 3] + calls[n - 2]) / 4;
      && (Hold(Register(calls), now, jitter) > 0 <==> now < mean + 80)
      && (now < mean + 80 ==> now + Hold(Register(calls), now, jitter) == mean + 80 + jitter)
  {
    var n, reg := |calls|, Register(calls);
    assert reg[1] == calls[n - 2] && reg[2] == calls[n - 3] && reg[3] == calls[n - 4];
    assert 0 !in reg by {
      assert forall i :: 0 <= i < STORED ==> reg[i] in calls;
    }
  }

  /** A pod that calls at least 80 seconds after its last call is never held. */
  lemma LateCallPasses(calls: seq<nat>, now: nat, jitter: nat)
    requires jitter < 10 && NonDecreasing(calls) && (forall c :: c in calls ==> c > 0) && (calls != [] ==> now >= calls[|calls| - 1] + 80)
    ensures Hold(Register(calls), now, jitter) == 0
  {
    if |calls| >= 4 {
      var n := |calls|;
      assert calls[n - 4] <= calls[n - 3] <= calls[n - 2] <= calls[n - 1];
      HeldIff(calls, now, jitter);
    } else {
      FirstCallsPass(calls, now, jitter);
    }
  }

  /** While fewer than four calls were made, nothing is held. */
  lemma FirstCallsPass(calls: seq<nat>, now: nat, jitter: nat)
    requires |calls| < STORED && jitter < COEFF
    ensures Hold(Register(calls), now, jitter) == 0
  {
    assert Register(calls)[3] == 0;
  }

  /** Calls for one pod, one after the other: each begins when the one before was released. */
  ghost predicate Serialised(calls: seq<nat>, jitters: seq<nat>) {
    && |jitters| == |calls| && (forall i :: 0 <= i < |calls| ==> calls[i] > 0 && jitters[i] < COEFF)
    && forall i :: 0 <= i < |calls| - 1 ==> calls[i] + Hold(Register(calls[..i]), calls[i], jitters[i]) <= calls[i + 1]
  }

  lemma {:induction false} SerialisedGrows(calls: seq<nat>, jitters: seq<nat>, i: nat, j: nat)
    requires Serialised(calls, jitters) && i <= j < |calls|
    ensures calls[i] <= calls[j]
  {
    if i < j { SerialisedGrows(calls, jitters, i, j - 1); }
  }

  /** Five calls later at least 80 seconds have passed. */
  lemma FiveCallsApart(calls: seq<nat>, jitters: seq<nat>, k: nat)
    requires Serialised(calls, jitters) && k + 5 < |calls|
    ensures calls[k + 5] >= calls[k] + TRIGGER
  {
    var before := calls[..k + 4];
    var upTo := before + [calls[k + 4]];
    forall i, j | 0 <= i <= j < |upTo| ensures upTo[i] <= upTo[j] {
      SerialisedGrows(calls, jitters, i, j);
    }
    ReleasedLate(before, calls[k + 4], jitters[k + 4]);
  }

  /** In any window of T seconds at most 5 * (T / 80 + 1) calls of a pod begin. */
  lemma {:induction false} CallsInWindow(calls: seq<nat>, jitters: seq<nat>, first: nat, last: nat)
    requires Serialised(calls, jitters) && first <= last < |calls|
    ensures last - first + 1 <= 5 * ((calls[last] - calls[first]) / TRIGGER + 1)
    decreases last - first
  {
    hide Serialised;
    SerialisedGrows(calls, jitters, first, last);
    if last - first >= 5 {
      FiveCallsApart(calls, jitters, last - 5);
      CallsInWindow(calls, jitters, first, last - 5);
      SerialisedGrows(calls, jitters, first, last - 5);
    }
  }

  // ---------- the runtime ----------

  /** What a call of the back-off does to its caller: nothing, a sleep, or a crash. */
  datatype Outcome = Slept(seconds: nat) | Crashed

  class Runtime {
    /** RunPodCalled: the register of each pod seen so far. */
    var called: map<string, array<nat>>
    /** All call times of each pod, oldest first. */
    ghost var history: map<string, seq<nat>>

    constructor ()
      ensures Valid() && history == map[]
    {
      called, history := map[], map[];
    }

    ghost function Registers(): set<array<nat>>
      reads this
    {
      set pod | pod in called :: called[pod]
    }

    ghost predicate Valid()
      reads this, Registers()
    {
      && called.Keys == history.Keys
      && (forall pod :: pod in called ==> called[pod].Length == STORED && called[pod][..] == Register(history[pod]) && history[pod] != [])
      && (forall a, b :: a in called && b in called && called[a] == called[b] ==> a == b)
    }

    /** `basicBackoff`, called at second `now`; `jitter` is what the random number was. */
    method BasicBackoff(pod: string, now: nat, jitter: nat) returns (r: Outcome)
      requires Valid() && jitter < COEFF
      modifies this, Registers()
      ensures Valid()
      ensures history == old(history)[pod := (if pod in old(history) then old(history)[pod] else []) + [now]]
      ensures pod !in old(history) ==> r == Slept(0)
      ensures pod in old(history) ==>
                r == if Fails(Register(old(history)[pod])) then Crashed else Slept(Hold(Register(old(history)[pod]), now, jitter))
    {
      if pod in called {
        var last := called[pod];
        var t, empty := Push(last, history[pod], now);
        history := history[pod := history[pod] + [now]];
        if empty == STORED {
          return Crashed;
        }
        var elapsed: int := now - t / STORED;
        r := if empty == 0 && elapsed < TRIGGER then Slept(TRIGGER - elapsed + jitter) else Slept(0);
      } else {
        var slots := new nat[STORED](i => 0);
        slots[0] := now;
        assert slots[..] == Register([] + [now]);
        called := called[pod := slots];
        history := history[pod := [] + [now]];
        r := Slept(0);
      }
    }

    /** The part under the lock: counts the empty slots, shifts the register and stores
        the new time. */
    method Push(last: array<nat>, ghost calls: seq<nat>, now: nat) returns (t: nat, empty: nat)
      requires last.Length == STORED && last[..] == Register(calls)
      modifies last
      ensures last[..] == Register(calls + [now])
      ensures t / STORED == Mean(Register(calls))
      ensures empty <= STORED && (empty == 0 <==> 0 !in Register(calls)) && (empty == STORED <==> Fails(Register(calls)))
    {
      empty := CountEmpty(last);
      t := Shift(last);
      last[0] := now;
    }

    method CountEmpty(last: array<nat>) returns (empty: nat)
      requires last.Length == STORED
      ensures empty <= STORED && (empty == 0 <==> 0 !in last[..]) && (empty == STORED <==> last[..] == [0, 0, 0, 0])
    {
      empty := 0;
      for i := 0 to STORED
        invariant empty <= i && (empty == 0 <==> forall j :: 0 <= j < i ==> last[j] != 0) && (empty == i <==> forall j :: 0 <= j < i ==> last[j] == 0)
      {
        if last[i] == 0 { empty := empty + 1; }
      }
    }

    /** Moves the first three times one slot on, adding up what the mean is taken of. */
    method Shift(last: array<nat>) returns (t: nat)
      requires last.Length == STORED
      modifies last
      ensures last[..] == [old(last[0])] + old(last[..3])
      ensures t == old(2 * last[3] + last[2] + last[1])
    {
      t := last[STORED - 1];
      var i := STORED - 1;
      while i > 0
        invariant 0 <= i < STORED
        invariant forall j :: 0 <= j <= i ==> last[j] == old(last[j])
        invariant forall j :: i < j < STORED ==> last[j] == old(last[j - 1])
        invariant t == old(last[3]) + (if i < 3 then old(last[3]) else 0) + (if i < 2 then old(last[2]) else 0) + (if i < 1 then old(last[1]) else 0)
      {
        t := t + last[i];
        last[i] := last[i - 1];
        i := i - 1;
      }
    }
  }

}
