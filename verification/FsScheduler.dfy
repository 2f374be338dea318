/**
 File-system triggers: FSTriggersScheduler in taskscheduler/trigger_scheduler.go, with the paths of
 taskscheduler/utils.go.
 */
module FileTriggers {
  import opened InverseIndex
  import opened Triggers

  const SLASH: byte := 0x2f

  /** A path in its own type, so that maps are keyed by whole paths. */
  datatype Path = Path(bytes: Bytes)

  // ---- Paths ----

  function NormalizePath(path: Bytes): Bytes {
    var p := if |path| > 0 && path[0] == SLASH then path else [SLASH] + path;
    if p[|p| - 1] == SLASH then p[..|p| - 1] else p
  }

  function Normalize(path: Path): Path {
    Path(NormalizePath(path.bytes))
  }

  predicate MatchesPath(root: Path, path: Path) {
    root.bytes <= path.bytes
  }

  /** The paths normalisation leaves alone. */
  lemma NormalFixed(path: Bytes)
    ensures NormalizePath(path) == path
            <==> path == [] || (path[0] == SLASH && path[|path| - 1] != SLASH)
  {
  }

  /** Normalisation drops one trailing slash only: twice is not once. */
  lemma NormalizeTwice(path: Bytes)
    ensures NormalizePath(NormalizePath(path)) == NormalizePath(path)
            <==> !(|path| >= 2 && path[|path| - 1] == SLASH && path[|path| - 2] == SLASH)
  {
  }

  /** A path without a leading slash means the one with it; one with a trailing slash means the one without. */
  lemma NormalForms(path: Bytes)
    requires path != []
    ensures path[0] != SLASH ==> NormalizePath(path) == NormalizePath([SLASH] + path)
    ensures path[0] == SLASH ==> NormalizePath(path + [SLASH]) == path
    ensures NormalizePath([SLASH]) == NormalizePath([]) == []
  {
    if path[0] == SLASH {
      assert (path + [SLASH])[..|path|] == path;
    }
  }

  // ---- Operations on values ----

  /** `watched` is what the watcher watches. */
  datatype State = State(pathTriggers: Index<Path>, triggers: map<Id, TaskTrigger>, watched: set<Path>)

  /** `watchable` is the watcher's answer, if it is asked. */
  function AfterScheduleByID(s: State, id: Id, trigger: TaskTrigger, watchable: bool, text: Bytes -> Path): State {
    var path := Normalize(text(trigger.body));
    if path !in s.pathTriggers && !watchable then s
    else
      State(Put(s.pathTriggers, path, id, trigger), s.triggers[id := trigger],
            if path in s.pathTriggers then s.watched else s.watched + {path})
  }

  /**
   `unwatched` is whether the watcher gave the path up. The path is taken as the trigger has it, and the trigger
   stays known.
   */
  function AfterUnschedule(s: State, id: Id, unwatched: bool, text: Bytes -> Path): State {
    if id !in s.triggers then s
    else
      var path := text(s.triggers[id].body);
      if path !in s.pathTriggers then s
      else if |s.pathTriggers[path]| == 1 then
        s.(pathTriggers := s.pathTriggers - {path}, watched := if unwatched then s.watched - {path} else s.watched)
      else s.(pathTriggers := s.pathTriggers[path := s.pathTriggers[path] - {id}])
  }

  // ---- The object ----

  class FSTriggersScheduler {
    const text: Bytes -> Path
    const hasCallback: bool
    var pathTriggers: Index<Path>
    var triggers: map<Id, TaskTrigger>
    var watched: set<Path>

    ghost function Value(): State
      reads this
    {
      State(pathTriggers, triggers, watched)
    }

    constructor (text: Bytes -> Path, hasCallback: bool)
      ensures Value() == State(map[], map[], {}) && this.text == text && this.hasCallback == hasCallback
    {
      this.text, this.hasCallback := text, hasCallback;
      pathTriggers, triggers, watched := map[], map[], {};
    }

    method ScheduleByID(id: Id, trigger: TaskTrigger, watchable: bool) returns (failed: bool)
      requires trigger.name == TRIGGER_FSNOTIFY
      modifies this
      ensures Value() == AfterScheduleByID(old(Value()), id, trigger, watchable, text)
      ensures failed <==> !watchable && Normalize(text(trigger.body)) !in old(pathTriggers)
      ensures failed ==> Value() == old(Value())
    {
      var path := Normalize(text(trigger.body));
      if path in pathTriggers {
        pathTriggers := pathTriggers[path := pathTriggers[path][id := trigger]];
      } else {
        if !watchable {
          return true;
        }
        watched := watched + {path};
        pathTriggers := pathTriggers[path := map[id := trigger]];
      }
      triggers := triggers[id := trigger];
      return false;
    }

    method Unschedule(id: Id, unwatched: bool) returns (found: bool)
      modifies this
      ensures Value() == AfterUnschedule(old(Value()), id, unwatched, text)
      ensures found <==> id in old(triggers) && text(old(triggers)[id].body) in old(pathTriggers)
    {
      found := id in triggers;
      if found {
        var path := text(triggers[id].body);
        found := path in pathTriggers;
        if found {
          if |pathTriggers[path]| == 1 {
            if unwatched {
              watched := watched - {path};
            }
            pathTriggers := pathTriggers - {path};
          } else {
            pathTriggers := pathTriggers[path := pathTriggers[path] - {id}];
          }
        }
      }
    }

    /** The ids the callback is called with for an event at `path`, in map order. */
    method DispatchEvent(path: Path) returns (fired: seq<Id>)
      ensures !hasCallback ==> fired == []
      ensures hasCallback ==> forall id :: multiset(fired)[id] == |Reaching(pathTriggers, path, id)|
    {
      fired := [];
      if !hasCallback {
        return;
      }
      var roots := pathTriggers.Keys;
      while roots != {}
        invariant roots <= pathTriggers.Keys
        invariant FiredBut(pathTriggers, path, roots, fired)
        decreases roots
      {
        var root :| root in roots;
        var ids := [];
        if MatchesPath(root, path) {
          ids := InMapOrder(pathTriggers[root].Keys);
        }
        FiredOneMore(pathTriggers, path, roots, root, fired, ids);
        fired := fired + ids;
        roots := roots - {root};
      }
      assert forall id :: Reaching(pathTriggers, path, id) - {} == Reaching(pathTriggers, path, id);
    }
  }

  /** The inner loop of a dispatch: each id once. */
  method InMapOrder(ids: set<Id>) returns (fired: seq<Id>)
    ensures forall id :: multiset(fired)[id] == if id in ids then 1 else 0
  {
    fired := [];
    var left := ids;
    while left != {}
      invariant left <= ids
      invariant forall id :: multiset(fired)[id] == if id in ids && id !in left then 1 else 0
      decreases left
    {
      var id :| id in left;
      fired := fired + [id];
      left := left - {id};
    }
  }

  /** The watched roots that lead from the event's path to the trigger. */
  ghost function Reaching(index: Index<Path>, path: Path, id: Id): set<Path> {
    set root | root in index && MatchesPath(root, path) && id in index[root]
  }

  /** All the watched roots have been fired but those in `roots`. */
  ghost predicate FiredBut(index: Index<Path>, path: Path, roots: set<Path>, fired: seq<Id>) {
    forall id :: multiset(fired)[id] == |Reaching(index, path, id) - roots|
  }

  lemma FiredOneMore(index: Index<Path>, path: Path, roots: set<Path>, root: Path, fired: seq<Id>, ids: seq<Id>)
    requires root in roots && roots <= index.Keys && FiredBut(index, path, roots, fired)
    requires forall id :: multiset(ids)[id] == if MatchesPath(root, path) && id in index[root] then 1 else 0
    ensures FiredBut(index, path, roots - {root}, fired + ids)
  {
    forall id
      ensures multiset(fired + ids)[id] == |Reaching(index, path, id) - (roots - {root})|
    {
      ReachingOneMore(index, path, id, roots, root);
      assert multiset(fired)[id] == |Reaching(index, path, id) - roots|;
    }
  }

  lemma ReachingOneMore(index: Index<Path>, path: Path, id: Id, roots: set<Path>, root: Path)
    requires root in roots && roots <= index.Keys
    ensures |Reaching(index, path, id) - (roots - {root})|
            == |Reaching(index, path, id) - roots| + if MatchesPath(root, path) && id in index[root] then 1 else 0
  {
    var all := Reaching(index, path, id);
    if root in all {
      assert all - (roots - {root}) == (all - roots) + {root};
    } else {
      assert all - (roots - {root}) == all - roots;
    }
  }

  // ---- Exactness ----

  /** The path a trigger is indexed under. */
  function Normal(text: Bytes -> Path): Bytes -> Path {
    (body: Bytes) => Normalize(text(body))
  }

  /**
   The path index is the inverse of the triggers by normalised path, without empty entries; exactly its paths are
   watched.
   */
  ghost predicate Exact(s: State, text: Bytes -> Path) {
    Inverts(s.pathTriggers, s.triggers, Normal(text)) && s.watched == s.pathTriggers.Keys
  }

  /** `held` is what has been scheduled and not unscheduled since; the index is exact for it, whatever else is known. */
  ghost predicate Follows(s: State, held: map<Id, TaskTrigger>, text: Bytes -> Path) {
    && Exact(s.(triggers := held), text)
    && forall id | id in held :: id in s.triggers && s.triggers[id] == held[id]
  }

  // ---- Requests ----

  datatype Request = Ask(id: Id, trigger: TaskTrigger, watchable: bool) | Forget(id: Id, unwatched: bool)

  function Apply(s: State, op: Request, text: Bytes -> Path): State {
    match op
    case Ask(id, trigger, watchable) => AfterScheduleByID(s, id, trigger, watchable, text)
    case Forget(id, unwatched) => AfterUnschedule(s, id, unwatched, text)
  }

  predicate Refused(s: State, op: Request, text: Bytes -> Path) {
    op.Ask? && !op.watchable && Normalize(text(op.trigger.body)) !in s.pathTriggers
  }

  function Holds(s: State, held: map<Id, TaskTrigger>, op: Request, text: Bytes -> Path): map<Id, TaskTrigger> {
    if Refused(s, op, text) then held
    else if op.Ask? then held[op.id := op.trigger]
    else held - {op.id}
  }

  /**
   A trigger keeps its path if it is scheduled again. One that is unscheduled has a path in normal form, and if it is
   the last there the watcher gives that up; one that was unscheduled before finds no single other trigger under its
   path.
   */
  predicate Guard(s: State, held: map<Id, TaskTrigger>, op: Request, text: Bytes -> Path) {
    match op
    case Ask(id, trigger, _) =>
      Refused(s, op, text) || id !in held || Normalize(text(held[id].body)) == Normalize(text(trigger.body))
    case Forget(id, unwatched) =>
      || id !in s.triggers
      || var path := text(s.triggers[id].body);
         var single := |At(s.pathTriggers, path)| == 1;
         if id in held then Normalize(path) == path && (single ==> unwatched) else !single
  }

  lemma ScheduleFollows(s: State, held: map<Id, TaskTrigger>, op: Request, text: Bytes -> Path)
    requires Follows(s, held, text) && op.Ask?
    ensures Follows(Apply(s, op, text), Holds(s, held, op, text), text) <==> Guard(s, held, op, text)
  {
    PutInverts(s.pathTriggers, held, Normal(text), op.id, op.trigger);
  }

  lemma UnscheduleFollows(s: State, held: map<Id, TaskTrigger>, op: Request, text: Bytes -> Path)
    requires Follows(s, held, text) && op.Forget?
    ensures Follows(Apply(s, op, text), Holds(s, held, op, text), text) <==> Guard(s, held, op, text)
  {
    if op.id in held {
      HeldUnscheduled(s, held, op, text);
    } else {
      assert held - {op.id} == held;
      if op.id in s.triggers {
        StaleUnscheduled(s, held, op, text);
      }
    }
  }

  lemma HeldUnscheduled(s: State, held: map<Id, TaskTrigger>, op: Request, text: Bytes -> Path)
    requires Follows(s, held, text) && op.Forget? && op.id in held
    ensures Follows(Apply(s, op, text), held - {op.id}, text) <==> Guard(s, held, op, text)
  {
    var id, r, path := op.id, Apply(s, op, text), text(held[op.id].body);
    InvertsAt(s.pathTriggers, held, Normal(text), Normalize(path), id);
    if Normalize(path) != path {
      assert At(r.pathTriggers, Normalize(path)) == At(s.pathTriggers, Normalize(path));
      StrayIsInexact(r.pathTriggers, held - {id}, Normal(text), Normalize(path), id);
    } else {
      TakeInverts(s.pathTriggers, held, Normal(text), id);
      TakeSize(s.pathTriggers, path, id);
    }
  }

  lemma StaleUnscheduled(s: State, held: map<Id, TaskTrigger>, op: Request, text: Bytes -> Path)
    requires Follows(s, held, text) && op.Forget? && op.id in s.triggers && op.id !in held
    ensures Follows(Apply(s, op, text), held, text) <==> Guard(s, held, op, text)
  {
    var r, path := Apply(s, op, text), text(s.triggers[op.id].body);
    InvertsAt(s.pathTriggers, held, Normal(text), path, op.id);
    if |At(s.pathTriggers, path)| == 1 {
      var lost :| lost in s.pathTriggers[path];
      InvertsAt(s.pathTriggers, held, Normal(text), path, lost);
      LostIsInexact(r.pathTriggers, held, Normal(text), path, lost);
    } else {
      StrangerTakesNothing(s, op, text);
    }
  }

  lemma StrangerTakesNothing(s: State, op: Request, text: Bytes -> Path)
    requires op.Forget? && op.id in s.triggers
    requires var here := At(s.pathTriggers, text(s.triggers[op.id].body)); op.id !in here && |here| != 1
    ensures Apply(s, op, text) == s
  {
    var path := text(s.triggers[op.id].body);
    if path in s.pathTriggers {
      assert s.pathTriggers[path] - {op.id} == s.pathTriggers[path];
      assert s.pathTriggers[path := s.pathTriggers[path]] == s.pathTriggers;
    }
  }

  // ---- Runs of requests ----

  function Run(s: State, ops: seq<Request>, text: Bytes -> Path): State
    decreases |ops|
  {
    if |ops| == 0 then s else Run(Apply(s, ops[0], text), ops[1..], text)
  }

  function HeldAfter(s: State, held: map<Id, TaskTrigger>, ops: seq<Request>, text: Bytes -> Path): map<Id, TaskTrigger>
    decreases |ops|
  {
    if |ops| == 0 then held else HeldAfter(Apply(s, ops[0], text), Holds(s, held, ops[0], text), ops[1..], text)
  }

  predicate Guarded(s: State, held: map<Id, TaskTrigger>, ops: seq<Request>, text: Bytes -> Path)
    decreases |ops|
  {
    ops == []
    || (Guard(s, held, ops[0], text) && Guarded(Apply(s, ops[0], text), Holds(s, held, ops[0], text), ops[1..], text))
  }

  /** The index follows what is held at the start and after every request. */
  ghost predicate AlwaysFollows(s: State, held: map<Id, TaskTrigger>, ops: seq<Request>, text: Bytes -> Path)
    decreases |ops|
  {
    && Follows(s, held, text)
    && (ops == [] || AlwaysFollows(Apply(s, ops[0], text), Holds(s, held, ops[0], text), ops[1..], text))
  }

  /** Over runs, with repeated and stale requests: the index follows throughout if and only if all are guarded. */
  lemma {:induction false} RunFollows(s: State, held: map<Id, TaskTrigger>, ops: seq<Request>, text: Bytes -> Path)
    requires Follows(s, held, text)
    ensures AlwaysFollows(s, held, ops, text) <==> Guarded(s, held, ops, text)
    ensures Guarded(s, held, ops, text) ==> Follows(Run(s, ops, text), HeldAfter(s, held, ops, text), text)
    decreases |ops|
  {
    if ops != [] {
      if ops[0].Ask? {
        ScheduleFollows(s, held, ops[0], text);
      } else {
        UnscheduleFollows(s, held, ops[0], text);
      }
      if Guard(s, held, ops[0], text) {
        RunFollows(Apply(s, ops[0], text), Holds(s, held, ops[0], text), ops[1..], text);
      }
    }
  }

  lemma {:induction false} RunJoins(s: State, held: map<Id, TaskTrigger>, a: seq<Request>, b: seq<Request>,
          text: Bytes -> Path)
    ensures Run(s, a + b, text) == Run(Run(s, a, text), b, text)
    ensures HeldAfter(s, held, a + b, text) == HeldAfter(Run(s, a, text), HeldAfter(s, held, a, text), b, text)
    decreases |a|
  {
    if a == [] {
      assert a + b == b;
    } else {
      assert (a + b)[1..] == a[1..] + b;
      RunJoins(Apply(s, a[0], text), Holds(s, held, a[0], text), a[1..], b, text);
    }
  }

  const EMPTY: State := State(map[], map[], {})

  /**
   An input: "/a" is scheduled under one id and unscheduled, "a" is scheduled under another, and the first id is
   unscheduled once more: the second trigger is gone from the index and its path from the watcher.
   */
  lemma StaleTakesAnother(i: Id, j: Id)
    requires i != j
    ensures var text, a := (body: Bytes) => Path(body), Path([SLASH, 0x61]);
            var x := TaskTrigger(TRIGGER_FSNOTIFY, [SLASH, 0x61], false);
            var y := TaskTrigger(TRIGGER_FSNOTIFY, [0x61], false);
            var first := AfterUnschedule(AfterScheduleByID(EMPTY, i, x, true, text), i, true, text);
            var second := AfterScheduleByID(first, j, y, true, text);
            && second == State(map[a := map[j := y]], map[i := x, j := y], {a})
            && AfterUnschedule(second, i, true, text) == State(map[], second.triggers, {})
  {
    var text, a := (body: Bytes) => Path(body), Path([SLASH, 0x61]);
    var x, y := TaskTrigger(TRIGGER_FSNOTIFY, [SLASH, 0x61], false), TaskTrigger(TRIGGER_FSNOTIFY, [0x61], false);
    assert Normalize(text(x.body)) == a && Normalize(text(y.body)) == a;
    var put := AfterScheduleByID(EMPTY, i, x, true, text);
    assert put == State(map[a := map[i := x]], map[i := x], {a});
    assert AfterUnschedule(put, i, true, text) == State(map[], map[i := x], {});
  }

  // ---- What Unschedule leaves known ----

  /** With the triggers as they are kept, an Unschedule that takes anything away leaves the index inexact. */
  lemma UnscheduleForgetsNoTrigger(s: State, id: Id, unwatched: bool, text: Bytes -> Path)
    requires Exact(s, text)
    ensures Exact(AfterUnschedule(s, id, unwatched, text), text)
            <==> !(&& id in s.triggers
                   && var here := At(s.pathTriggers, text(s.triggers[id].body));
                      id in here || |here| == 1)
  {
    if id in s.triggers {
      var r, path := AfterUnschedule(s, id, unwatched, text), text(s.triggers[id].body);
      var here := At(s.pathTriggers, path);
      if id in here || |here| == 1 {
        var lost := if id in here then id else var i :| i in here; i;
        InvertsAt(s.pathTriggers, s.triggers, Normal(text), path, lost);
        LostIsInexact(r.pathTriggers, r.triggers, Normal(text), path, lost);
      } else {
        assert here - {id} == here;
        assert path in s.pathTriggers ==> r.pathTriggers == s.pathTriggers;
      }
    }
  }

  /** And the trigger is never forgotten: a second Unschedule takes away the last other trigger of the path. */
  lemma SecondUnscheduleTakesAnother(s: State, id: Id, other: Id, text: Bytes -> Path)
    requires Exact(s, text) && id in s.triggers && other != id
    requires var path := text(s.triggers[id].body);
             Normalize(path) == path && At(s.pathTriggers, path).Keys == {id, other}
    ensures var path := text(s.triggers[id].body);
            var once := AfterUnschedule(s, id, true, text);
            && At(once.pathTriggers, path).Keys == {other}
            && path !in AfterUnschedule(once, id, true, text).pathTriggers
            && path !in AfterUnschedule(once, id, true, text).watched
  {
  }

  /** An input: a trigger for "/a/" is indexed under "/a", and unscheduling it takes nothing away. */
  lemma TrailingSlashIsNeverUnscheduled(id: Id, body: Bytes)
    ensures var text := (_: Bytes) => Path([SLASH, 0x61, SLASH]);
            var s := AfterScheduleByID(EMPTY, id, TaskTrigger(TRIGGER_FSNOTIFY, body, false), true, text);
            && id in At(s.pathTriggers, Path([SLASH, 0x61])) && Path([SLASH, 0x61]) in s.watched
            && AfterUnschedule(s, id, true, text) == s
  {
    assert NormalizePath([SLASH, 0x61, SLASH]) == [SLASH, 0x61];
    assert [SLASH, 0x61] != [SLASH, 0x61, SLASH];
  }

  // ---- Dispatch ----

  /**
   If the index follows what is held, an event fires each held trigger whose normalised path is a prefix of the event's
   path once, and no other.
   */
  lemma DispatchFollows(s: State, held: map<Id, TaskTrigger>, text: Bytes -> Path, path: Path, id: Id)
    requires Follows(s, held, text)
    ensures |Reaching(s.pathTriggers, path, id)|
            == if id in held && Below(NormalizePath(text(held[id].body).bytes), path.bytes) then 1 else 0
  {
    forall root
      ensures root in Reaching(s.pathTriggers, path, id)
              <==> id in held && root == Normalize(text(held[id].body)) && Below(root.bytes, path.bytes)
    {
      InvertsAt(s.pathTriggers, held, Normal(text), root, id);
    }
    if id in held && Below(NormalizePath(text(held[id].body).bytes), path.bytes) {
      assert Reaching(s.pathTriggers, path, id) == {Normalize(text(held[id].body))};
    } else {
      assert Reaching(s.pathTriggers, path, id) == {};
    }
  }

  /** The path starts with the root's bytes. */
  predicate Below(root: Bytes, path: Bytes) {
    |root| <= |path| && forall i | 0 <= i < |root| :: path[i] == root[i]
  }

  /** An input: a trigger for "/a" fires for "/a/b", and for "/ab", but not for "/b" or "/". */
  lemma FiresBelow(id: Id, body: Bytes)
    ensures var s := AfterScheduleByID(EMPTY, id, TaskTrigger(TRIGGER_FSNOTIFY, body, false), true,
                                       (_: Bytes) => Path([SLASH, 0x61]));
            && |Reaching(s.pathTriggers, Path([SLASH, 0x61, SLASH, 0x62]), id)| == 1
            && |Reaching(s.pathTriggers, Path([SLASH, 0x61, 0x62]), id)| == 1
            && |Reaching(s.pathTriggers, Path([SLASH, 0x62]), id)| == 0
            && |Reaching(s.pathTriggers, Path([SLASH]), id)| == 0
  {
    var text, trigger := (_: Bytes) => Path([SLASH, 0x61]), TaskTrigger(TRIGGER_FSNOTIFY, body, false);
    var op := Ask(id, trigger, true);
    assert NormalizePath([SLASH, 0x61]) == [SLASH, 0x61];
    ScheduleFollows(EMPTY, map[], op, text);
    var s := Apply(EMPTY, op, text);
    DispatchFollows(s, map[id := trigger], text, Path([SLASH, 0x61, SLASH, 0x62]), id);
    DispatchFollows(s, map[id := trigger], text, Path([SLASH, 0x61, 0x62]), id);
    DispatchFollows(s, map[id := trigger], text, Path([SLASH, 0x62]), id);
    DispatchFollows(s, map[id := trigger], text, Path([SLASH]), id);
  }
}
