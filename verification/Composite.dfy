/**
 Routing triggers to child schedulers, starting them together, packing ids: CompositeTriggersScheduler in
 taskscheduler/trigger_scheduler.go.
 */
module Composite {
  import opened Triggers

  /** A child schedules one type of trigger; `held` is what it has accepted and not unscheduled. */
  datatype Child = Child(kind: Bytes, running: bool, held: set<Id>)

  datatype Scheduler = Scheduler(children: seq<Child>, ids: map<Id, nat>, isRunning: bool)

  /** The first child that can schedule the type, or |children|. */
  function Route(children: seq<Child>, kind: Bytes): (i: nat)
    ensures i <= |children|
    ensures forall j | 0 <= j < i :: children[j].kind != kind
    ensures i < |children| ==> children[i].kind == kind
  {
    if |children| == 0 || children[0].kind == kind then 0 else 1 + Route(children[1..], kind)
  }

  lemma RouteIsFirst(children: seq<Child>, kind: Bytes, i: nat)
    requires i <= |children| && (forall j | 0 <= j < i :: children[j].kind != kind)
    requires i < |children| ==> children[i].kind == kind
    ensures Route(children, kind) == i
  {
  }

  function AfterScheduleByID(s: Scheduler, id: Id, kind: Bytes, ok: bool): Scheduler {
    var i := Route(s.children, kind);
    if i == |s.children| || !ok then s
    else s.(children := s.children[i := s.children[i].(held := s.children[i].held + {id})], ids := s.ids[id := i])
  }

  /** `left` is what the child that is asked holds afterwards. */
  function AfterUnschedule(s: Scheduler, id: Id, left: set<Id>): Scheduler {
    if id in s.ids && s.ids[id] < |s.children| then
      s.(children := s.children[s.ids[id] := s.children[s.ids[id]].(held := left)])
    else s
  }

  /** Children up to the first that fails are running. */
  function Started(children: seq<Child>, starts: seq<bool>): seq<Child>
    requires |starts| == |children|
  {
    if |children| == 0 then []
    else if starts[0] then [children[0].(running := true)] + Started(children[1..], starts[1..])
    else children
  }

  function FirstFailure(starts: seq<bool>): (k: nat)
    ensures k <= |starts| && (forall j | 0 <= j < k :: starts[j]) && (k < |starts| ==> !starts[k])
  {
    if |starts| == 0 || !starts[0] then 0 else 1 + FirstFailure(starts[1..])
  }

  lemma {:induction false} StartedAt(children: seq<Child>, starts: seq<bool>)
    requires |starts| == |children|
    ensures |Started(children, starts)| == |children|
    ensures forall j | 0 <= j < |children| ::
              Started(children, starts)[j] == if j < FirstFailure(starts) then children[j].(running := true)
                else children[j]
  {
    if children != [] && starts[0] {
      StartedAt(children[1..], starts[1..]);
      forall j | 0 <= j < |children|
        ensures Started(children, starts)[j] == if j < FirstFailure(starts) then children[j].(running := true)
                else children[j]
      {
        if j > 0 {
          assert Started(children, starts)[j] == Started(children[1..], starts[1..])[j - 1];
        }
      }
    }
  }

  datatype StartOutcome = Panics | Returns(failed: bool, scheduler: Scheduler)

  /** The rollback stops, once for each started child, the child after the one that failed; there may be none. */
  function AfterStart(s: Scheduler, starts: seq<bool>): StartOutcome
    requires |starts| == |s.children|
  {
    if s.isRunning then Returns(false, s)
    else
      var k, started := FirstFailure(starts), Started(s.children, starts);
      StartedAt(s.children, starts);
      if k == |starts| then Returns(false, s.(children := started, isRunning := true))
      else if k + 1 == |starts| then Panics
      else Returns(true, s.(children := started[k + 1 := started[k + 1].(running := false)]))
  }

  function AfterStop(s: Scheduler): Scheduler {
    if s.isRunning then
      s.(children := seq(|s.children|, i requires 0 <= i < |s.children| => s.children[i].(running := false)),
        isRunning := false)
    else s
  }

  // ---- The object ----

  class CompositeTriggersScheduler {
    var childSchedulers: seq<Child>
    var ids: map<Id, nat>
    var isRunning: bool

    ghost function Value(): Scheduler
      reads this
    {
      Scheduler(childSchedulers, ids, isRunning)
    }

    constructor (executors: seq<Child>)
      ensures Value() == Scheduler(executors, map[], false)
    {
      childSchedulers, ids, isRunning := executors, map[], false;
    }

    /** `ok` is the child's answer, if it is asked. */
    method ScheduleByID(id: Id, trigger: TaskTrigger, ok: bool) returns (failed: bool)
      modifies this
      ensures Value() == AfterScheduleByID(old(Value()), id, trigger.name, ok)
      ensures failed <==> !ok || forall child | child in childSchedulers :: child.kind != trigger.name
    {
      var index := 0;
      while index < |childSchedulers|
        invariant 0 <= index <= |childSchedulers|
        invariant forall j | 0 <= j < index :: childSchedulers[j].kind != trigger.name
        invariant Value() == old(Value())
      {
        if childSchedulers[index].kind == trigger.name {
          RouteIsFirst(childSchedulers, trigger.name, index);
          if !ok {
            return true;
          }
          var child := childSchedulers[index];
          childSchedulers := childSchedulers[index := child.(held := child.held + {id})];
          ids := ids[id := index];
          assert childSchedulers[index] in childSchedulers;
          return false;
        }
        index := index + 1;
      }
      RouteIsFirst(childSchedulers, trigger.name, index);
      return true;
    }

    /** `childFailed` and `childFound` are what the child answers, `left` is what it holds afterwards. */
    method Unschedule(id: Id, left: set<Id>, childFailed: bool, childFound: bool) returns (failed: bool, found: bool)
      requires id in ids ==> ids[id] < |childSchedulers|
      modifies this
      ensures Value() == AfterUnschedule(old(Value()), id, left)
      ensures failed == (id in ids ==> childFailed)
      ensures found == (id in ids && childFound)
    {
      failed, found := true, false;
      if id in ids {
        failed, found := childFailed, childFound;
        childSchedulers := childSchedulers[ids[id] := childSchedulers[ids[id]].(held := left)];
      }
    }

    /** `starts[i]` is whether child i starts, if it is asked to. */
    method Start(starts: seq<bool>) returns (panicked: bool, failed: bool)
      requires |starts| == |childSchedulers|
      modifies this
      ensures panicked == AfterStart(old(Value()), starts).Panics?
      ensures !panicked ==> AfterStart(old(Value()), starts) == Returns(failed, Value())
    {
      panicked, failed := false, false;
      if isRunning {
        return;
      }
      ghost var before := childSchedulers;
      var n := |childSchedulers|;
      StartedAt(before, starts);
      var i := 0;
      while i < n && !failed
        invariant 0 <= i <= n == |childSchedulers| == |before|
        invariant ids == old(ids) && isRunning == old(isRunning)
        invariant if failed then i == FirstFailure(starts) + 1 else i <= FirstFailure(starts)
        invariant forall j | 0 <= j < n ::
                    childSchedulers[j] == if j < i && !(failed && j == i - 1) then before[j].(running := true)
                      else before[j]
      {
        if starts[i] {
          childSchedulers := childSchedulers[i := childSchedulers[i].(running := true)];
        } else {
          failed := true;
        }
        i := i + 1;
      }
      assert childSchedulers == Started(before, starts);
      if failed {
        var j := 0;
        while j <= i && !panicked
          invariant 0 <= j <= i + 1 && panicked == (j > 0 && i == n)
          invariant ids == old(ids) && isRunning == old(isRunning)
          invariant childSchedulers == if j == 0 || panicked then Started(before, starts)
                                       else Started(before, starts)[i := Started(before, starts)[i].(running := false)]
        {
          if i < n {
            childSchedulers := childSchedulers[i := childSchedulers[i].(running := false)];
          } else {
            panicked := true;
          }
          j := j + 1;
        }
        return;
      }
      isRunning := true;
    }

    method Stop()
      modifies this
      ensures Value() == AfterStop(old(Value()))
    {
      if !isRunning {
        return;
      }
      ghost var before := childSchedulers;
      for i := 0 to |childSchedulers|
        invariant |childSchedulers| == |before| && ids == old(ids) && isRunning == old(isRunning)
        invariant forall j | 0 <= j < |before| :: childSchedulers[j] == if j < i then before[j].(running := false)
                else before[j]
      {
        childSchedulers := childSchedulers[i := childSchedulers[i].(running := false)];
      }
      isRunning := false;
    }
  }

  // ---- Routing ----

  /** What a child holds is recorded under that child. */
  ghost predicate Tracked(s: Scheduler) {
    && (forall id | id in s.ids :: s.ids[id] < |s.children|)
    && forall i, id | 0 <= i < |s.children| && id in s.children[i].held :: id in s.ids && s.ids[id] == i
  }

  /** An accepted trigger keeps this so if and only if no other child holds the same id. */
  lemma ScheduleTracked(s: Scheduler, id: Id, kind: Bytes, ok: bool)
    requires Tracked(s)
    ensures Tracked(AfterScheduleByID(s, id, kind, ok))
            <==> || !ok || Route(s.children, kind) == |s.children|
                 || forall i | 0 <= i < |s.children| && i != Route(s.children, kind) :: id !in s.children[i].held
  {
    var i, r := Route(s.children, kind), AfterScheduleByID(s, id, kind, ok);
    if ok && i < |s.children| {
      assert forall j | 0 <= j < |s.children| && j != i :: r.children[j] == s.children[j];
      if j :| 0 <= j < |s.children| && j != i && id in s.children[j].held {
        assert id in r.children[j].held && r.ids[id] == i;
      }
    }
  }

  /** Nothing else changes than what the child that is asked holds, and the record of the id. */
  lemma ScheduleTouches(s: Scheduler, id: Id, kind: Bytes, ok: bool, j: nat)
    requires j < |s.children|
    ensures var r, asked := AfterScheduleByID(s, id, kind, ok), Route(s.children, kind) == j && ok;
            && |r.children| == |s.children| && r.isRunning == s.isRunning
            && r.children[j].kind == s.children[j].kind && r.children[j].running == s.children[j].running
            && r.children[j].held == s.children[j].held + (if asked then {id} else {})
            && r.ids - {id} == s.ids - {id} && (asked ==> id in r.ids && r.ids[id] == j)
  {
  }

  /**
   Then Unschedule asks the child that accepted the id and no other, whatever else that child gives up; if it gives the
   id up, no child holds it any more.
   */
  lemma UnscheduleReaches(s: Scheduler, id: Id, left: set<Id>, j: nat)
    requires Tracked(s) && j < |s.children|
    requires id in s.ids ==> left <= s.children[s.ids[id]].held
    ensures var r := AfterUnschedule(s, id, left);
            && Tracked(r) && |r.children| == |s.children| && r.ids == s.ids && r.isRunning == s.isRunning
            && r.children[j] == (if id in s.ids && j == s.ids[id] then s.children[j].(held := left) else s.children[j])
            && (id in r.children[j].held <==> id in s.ids && j == s.ids[id] && id in left)
  {
  }

  // ---- Starting ----

  predicate AllRunning(s: Scheduler) {
    forall child | child in s.children :: child.running
  }

  predicate AllStopped(s: Scheduler) {
    forall child | child in s.children :: !child.running
  }

  /**
   Start from rest ends with every child running, or fails with every child stopped, if and only if no child fails,
   or the first one does and is not alone. If it fails, it panics exactly when the last child is the one that failed.
   */
  lemma StartAllOrNothing(s: Scheduler, starts: seq<bool>)
    requires |starts| == |s.children| && AllStopped(s) && !s.isRunning
    ensures AfterStart(s, starts).Panics? <==> |starts| > 0 && FirstFailure(starts) == |starts| - 1
    ensures var o := AfterStart(s, starts);
            (o.Returns? && if o.failed then AllStopped(o.scheduler) && !o.scheduler.isRunning
                           else AllRunning(o.scheduler) && o.scheduler.isRunning)
            <==> FirstFailure(starts) == |starts| || (FirstFailure(starts) == 0 && |starts| >= 2)
  {
    StartedAt(s.children, starts);
    var k, started := FirstFailure(starts), Started(s.children, starts);
    if k < |starts| - 1 {
      var final := started[k + 1 := started[k + 1].(running := false)];
      assert forall j | 0 <= j < |final| :: final[j].running == (j < k);
      assert k > 0 ==> final[0] in final;
    }
  }

  /** Whatever the outcome, exactly the children before the first failure are running, and nothing else has changed. */
  lemma StartLeaves(s: Scheduler, starts: seq<bool>, j: nat)
    requires |starts| == |s.children| && AllStopped(s) && !s.isRunning && j < |s.children|
    requires AfterStart(s, starts).Returns?
    ensures var o := AfterStart(s, starts);
            && (o.failed <==> FirstFailure(starts) < |starts|) && o.scheduler.isRunning == !o.failed
            && o.scheduler.ids == s.ids && |o.scheduler.children| == |s.children|
            && o.scheduler.children[j] == s.children[j].(running := j < FirstFailure(starts))
    ensures var r := AfterStart(s, starts).scheduler; r.isRunning ==> AfterStart(r, starts) == Returns(false, r)
  {
    StartedAt(s.children, starts);
  }

  /** An input: of three children the second fails; the first is left running, though Start has failed. */
  lemma RollbackLeavesChildRunning()
    ensures var rest := Child([], false, {});
            var o := AfterStart(Scheduler([rest, rest, rest], map[], false), [true, false, true]);
            o.Returns? && o.failed && !o.scheduler.isRunning && o.scheduler.children[0].running
  {
  }

  lemma StopStopsAll(s: Scheduler)
    requires s.isRunning
    ensures AllStopped(AfterStop(s)) && !AfterStop(s).isRunning
    ensures AfterStop(s).ids == s.ids && |AfterStop(s).children| == |s.children|
    ensures forall i | 0 <= i < |s.children| :: AfterStop(s).children[i].held == s.children[i].held
    ensures AfterStop(AfterStop(s)) == AfterStop(s)
  {
  }

  // ---- Packed ids ----

  /** The number of bits for an index: the logarithm of the number of children, rounded up. */
  function IndexBits(n: nat): (bits: nat)
    requires n >= 1
    ensures n <= Pow2(bits) && (bits > 0 ==> Pow2(bits - 1) < n)
  {
    if n == 1 then 0
    else
      var bits := 1 + IndexBits((n + 1) / 2);
      bits
  }

  /** Bitwise or of the low n bits. */
  function OrBits(a: nat, b: nat, n: nat): nat {
    if n == 0 then 0 else (if a % 2 == 1 || b % 2 == 1 then 1 else 0) + 2 * OrBits(a / 2, b / 2, n - 1)
  }

  function Shl(x: nat, k: nat): nat {
    if k == 0 then x else 2 * Shl(x, k - 1)
  }

  function Shr(x: nat, k: nat): nat {
    if k == 0 then x else Shr(x / 2, k - 1)
  }

  /** uint64(index) << (64 - bits) | id, in 64 bits. */
  function Pack(index: nat, id: nat, bits: nat): nat
    requires bits <= 64
  {
    OrBits(Shl(index, 64 - bits), id, 64)
  }

  lemma {:induction false} OrFits(a: nat, b: nat, n: nat)
    ensures OrBits(a, b, n) < Pow2(n)
  {
    if n > 0 {
      OrFits(a / 2, b / 2, n - 1);
    }
  }

  lemma {:induction false} OrZero(a: nat, n: nat)
    requires a < Pow2(n)
    ensures OrBits(a, 0, n) == a == OrBits(0, a, n)
  {
    if n > 0 {
      OrZero(a / 2, n - 1);
    }
  }

  lemma {:induction false} OrIdempotent(a: nat, b: nat, n: nat)
    ensures OrBits(a, OrBits(a, b, n), n) == OrBits(a, b, n)
  {
    if n > 0 {
      var low, high := if a % 2 == 1 || b % 2 == 1 then 1 else 0, OrBits(a / 2, b / 2, n - 1);
      assert (low + 2 * high) / 2 == high && (low + 2 * high) % 2 == low;
      OrIdempotent(a / 2, b / 2, n - 1);
    }
  }

  lemma {:induction false} OrShifted(a: nat, b: nat, n: nat, k: nat)
    requires k <= n
    ensures Shr(OrBits(a, b, n), k) == OrBits(Shr(a, k), Shr(b, k), n - k)
  {
    if k > 0 {
      OrShifted(a / 2, b / 2, n - 1, k - 1);
    }
  }

  lemma {:induction false} ShiftBack(x: nat, k: nat)
    ensures Shr(Shl(x, k), k) == x
  {
    if k > 0 {
      ShiftBack(x, k - 1);
    }
  }

  lemma {:induction false} ShiftOut(x: nat, k: nat)
    ensures x < Pow2(k) ==> Shr(x, k) == 0
    ensures Shl(0, k) == 0
  {
    if k > 0 {
      ShiftOut(x / 2, k - 1);
    }
  }

  lemma {:induction false} OrDisjoint(a: nat, x: nat, n: nat, k: nat)
    requires k <= n && x < Pow2(k) && a < Pow2(n - k)
    ensures OrBits(Shl(a, k), x, n) == Shl(a, k) + x
  {
    if k == 0 {
      OrZero(a, n);
    } else {
      OrDisjoint(a, x / 2, n - 1, k - 1);
    }
  }

  /** The top bits of a packed id are the index or-ed with the top bits of the child's id. */
  lemma PackedIndex(n: nat, index: nat, id: nat)
    requires 1 <= n && IndexBits(n) <= 64
    ensures Shr(Pack(index, id, IndexBits(n)), 64 - IndexBits(n))
            == OrBits(index, Shr(id, 64 - IndexBits(n)), IndexBits(n))
  {
    var k := 64 - IndexBits(n);
    OrShifted(Shl(index, k), id, 64, k);
    ShiftBack(index, k);
  }

  lemma PackSmall(n: nat, index: nat, id: nat)
    requires 1 <= n && IndexBits(n) <= 64 && index < n && id < Pow2(64 - IndexBits(n))
    ensures Shr(Pack(index, id, IndexBits(n)), 64 - IndexBits(n)) == index
    ensures Pack(index, id, IndexBits(n)) == Shl(index, 64 - IndexBits(n)) + id
  {
    var bits := IndexBits(n);
    PackedIndex(n, index, id);
    ShiftOut(id, 64 - bits);
    OrZero(index, bits);
    OrDisjoint(index, id, 64, 64 - bits);
  }

  /** Packed ids fit in 64 bits and determine child and id, for child ids below 2^(64 - bits); one child included. */
  lemma PackInjective(n: nat, i: nat, x: nat, j: nat, y: nat)
    requires 1 <= n && IndexBits(n) <= 64 && i < n && j < n
    requires x < Pow2(64 - IndexBits(n)) && y < Pow2(64 - IndexBits(n))
    ensures Pack(i, x, IndexBits(n)) < Pow2(64)
    ensures Pack(i, x, IndexBits(n)) == Pack(j, y, IndexBits(n)) <==> i == j && x == y
  {
    OrFits(Shl(i, 64 - IndexBits(n)), x, 64);
    PackSmall(n, i, x);
    PackSmall(n, j, y);
  }

  /**
   Trigger ids use all 64 bits: whatever child i packs x to, taken as a child id it packs alike for children 0 and i.
   */
  lemma PackCollides(n: nat, i: nat, x: nat)
    requires 1 <= n && IndexBits(n) <= 64 && i < n
    ensures var p := Pack(i, x, IndexBits(n));
            Pack(0, p, IndexBits(n)) == Pack(i, p, IndexBits(n)) == p
  {
    var k := 64 - IndexBits(n);
    OrIdempotent(Shl(i, k), x, 64);
    OrFits(Shl(i, k), x, 64);
    OrZero(Pack(i, x, IndexBits(n)), 64);
    ShiftOut(0, k);
  }

  /** Schedule, as opposed to ScheduleByID, records nothing under the id: Unschedule cannot find the child again. */
  function AfterSchedule(s: Scheduler, id: Id, kind: Bytes, ok: bool): Scheduler {
    var i := Route(s.children, kind);
    if i == |s.children| || !ok then s
    else s.(children := s.children[i := s.children[i].(held := s.children[i].held + {id})])
  }

  lemma ScheduleUntracked(s: Scheduler, id: Id, kind: Bytes, ok: bool)
    requires Tracked(s)
    ensures var i := Route(s.children, kind);
            Tracked(AfterSchedule(s, id, kind, ok)) <==> !ok || i == |s.children| || (id in s.ids && s.ids[id] == i)
    ensures var r := AfterSchedule(s, id, kind, ok);
            && r.ids == s.ids && r.isRunning == s.isRunning
            && r.children == AfterScheduleByID(s, id, kind, ok).children
  {
    var i, r := Route(s.children, kind), AfterSchedule(s, id, kind, ok);
    if ok && i < |s.children| {
      assert id in r.children[i].held;
      assert forall j | 0 <= j < |s.children| && j != i :: r.children[j] == s.children[j];
    }
  }
}
