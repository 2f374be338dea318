/**
 An index from keys to triggers that inverts the map of triggers by id; the event and the file-system schedulers in
 taskscheduler/trigger_scheduler.go each keep one.
 */
module InverseIndex {
  import opened Triggers

  type Index<K> = map<K, map<Id, TaskTrigger>>

  /** The triggers under a key. */
  function At<K>(index: Index<K>, key: K): map<Id, TaskTrigger> {
    if key in index then index[key] else map[]
  }

  function Put<K>(index: Index<K>, key: K, id: Id, trigger: TaskTrigger): Index<K> {
    index[key := At(index, key)[id := trigger]]
  }

  /** An entry goes with its last trigger. */
  function Take<K>(index: Index<K>, key: K, id: Id): Index<K> {
    if key !in index then index
    else if index[key] - {id} == map[] then index - {key}
    else index[key := index[key] - {id}]
  }

  /** The index is the inverse of the triggers by the keys of their bodies, without empty entries. */
  ghost predicate Inverts<K(!new)>(index: Index<K>, triggers: map<Id, TaskTrigger>, keyOf: Bytes -> K) {
    && (forall key | key in index :: index[key] != map[])
    && (forall key, id :: id in At(index, key) <==> id in triggers && keyOf(triggers[id].body) == key)
    && (forall key, id | id in At(index, key) :: At(index, key)[id] == triggers[id])
  }

  lemma InvertsAt<K(!new)>(index: Index<K>, triggers: map<Id, TaskTrigger>, keyOf: Bytes -> K, key: K, id: Id)
    requires Inverts(index, triggers, keyOf)
    ensures id in At(index, key) <==> id in triggers && keyOf(triggers[id].body) == key
    ensures id in At(index, key) ==> At(index, key)[id] == triggers[id]
  {
  }

  lemma StrayIsInexact<K(!new)>(index: Index<K>, triggers: map<Id, TaskTrigger>, keyOf: Bytes -> K, key: K, id: Id)
    requires id in At(index, key) && (id in triggers ==> keyOf(triggers[id].body) != key)
    ensures !Inverts(index, triggers, keyOf)
  {
  }

  lemma LostIsInexact<K(!new)>(index: Index<K>, triggers: map<Id, TaskTrigger>, keyOf: Bytes -> K, key: K, id: Id)
    requires id in triggers && keyOf(triggers[id].body) == key && id !in At(index, key)
    ensures !Inverts(index, triggers, keyOf)
  {
  }

  /** Entering a trigger keeps the index the inverse if and only if the id is new or keeps its key. */
  lemma PutInverts<K(!new)>(index: Index<K>, triggers: map<Id, TaskTrigger>, keyOf: Bytes -> K, id: Id,
          trigger: TaskTrigger)
    requires Inverts(index, triggers, keyOf)
    ensures Inverts(Put(index, keyOf(trigger.body), id, trigger), triggers[id := trigger], keyOf)
            <==> id in triggers ==> keyOf(triggers[id].body) == keyOf(trigger.body)
  {
    var key, triggers' := keyOf(trigger.body), triggers[id := trigger];
    var index' := Put(index, key, id, trigger);
    if id in triggers && keyOf(triggers[id].body) != key {
      var k := keyOf(triggers[id].body);
      InvertsAt(index, triggers, keyOf, k, id);
      StrayIsInexact(index', triggers', keyOf, k, id);
    } else {
      forall k, i
        ensures i in At(index', k) <==> i in triggers' && keyOf(triggers'[i].body) == k
        ensures i in At(index', k) ==> At(index', k)[i] == triggers'[i]
      {
        InvertsAt(index, triggers, keyOf, k, i);
      }
      assert id in index'[key];
    }
  }

  /** Taking a trigger out under its key keeps it the inverse. */
  lemma TakeInverts<K(!new)>(index: Index<K>, triggers: map<Id, TaskTrigger>, keyOf: Bytes -> K, id: Id)
    requires Inverts(index, triggers, keyOf) && id in triggers
    ensures Inverts(Take(index, keyOf(triggers[id].body), id), triggers - {id}, keyOf)
  {
    var index', triggers' := Take(index, keyOf(triggers[id].body), id), triggers - {id};
    forall k, i
      ensures i in At(index', k) <==> i in triggers' && keyOf(triggers'[i].body) == k
      ensures i in At(index', k) ==> At(index', k)[i] == triggers'[i]
    {
      InvertsAt(index, triggers, keyOf, k, i);
      InvertsAt(index, triggers, keyOf, k, id);
    }
  }

  lemma PutSize<K>(index: Index<K>, key: K, id: Id, trigger: TaskTrigger)
    ensures |Put(index, key, id, trigger)[key]| == |At(index, key)| + if id in At(index, key) then 0 else 1
  {
  }

  lemma TakeSize<K>(index: Index<K>, key: K, id: Id)
    requires id in At(index, key)
    ensures if |index[key]| == 1 then Take(index, key, id) == index - {key}
            else Take(index, key, id).Keys == index.Keys && |Take(index, key, id)[key]| == |index[key]| - 1
  {
    var left := index[key] - {id};
    assert left.Keys == index[key].Keys - {id};
    assert |left.Keys| == |index[key].Keys| - 1;
    assert left == map[] <==> |left.Keys| == 0;
  }
}
