/** The API server, for one kind of object: it stores objects verbatim. A deletion takes time, so an object
    being deleted is still found by the next `leaving[key]` reads. */
module ApiServer {
  import opened Wrappers

  datatype Store<K(==), V> = Store(stored: map<K, V>, leaving: map<K, nat>, writes: nat)
  {
    ghost predicate Valid() {
      leaving.Keys <= stored.Keys
    }

    /** What a read finds. */
    function Seen(key: K): Option<V> {
      if key in stored && !(key in leaving && leaving[key] == 0) then Some(stored[key]) else None
    }

    /** The store after a read: a deletion has come closer, or is complete. */
    function AfterGet(key: K): Store<K, V> {
      if key !in leaving then this
      else if leaving[key] == 0 then this.(stored := stored - {key}, leaving := leaving - {key})
      else this.(leaving := leaving[key := leaving[key] - 1])
    }

    /** A second deletion of an object changes nothing. */
    function Deleted(key: K, lag: nat): Store<K, V> {
      var s := this.(writes := writes + 1);
      if key !in stored || key in leaving then s else s.(leaving := leaving[key := lag])
    }

    /** A name in use, also by an object being deleted, is refused. */
    function Created(key: K, v: V): Store<K, V> {
      var s := this.(writes := writes + 1);
      if key in stored then s else s.(stored := stored[key := v])
    }

    function Replaced(key: K, v: V): Store<K, V> {
      var s := this.(writes := writes + 1);
      if key in stored then s.(stored := stored[key := v]) else s
    }

    /** A call that the server refuses. */
    function Refused(): Store<K, V> {
      this.(writes := writes + 1)
    }

    /** After up to `polls` successful reads, the last of them the first that finds nothing. */
    function Polled(key: K, polls: nat): Store<K, V>
      decreases polls
    {
      if polls == 0 then this
      else if Seen(key).None? then AfterGet(key)
      else AfterGet(key).Polled(key, polls - 1)
    }
  }

  /** How many reads a loop of up to `limit` makes when only the first `answered` of them succeed: an error of a read
      is taken for the object being gone. */
  function PollsMade(limit: nat, answered: nat): nat {
    if answered < limit then answered else limit
  }

  /** A deletion is complete exactly when it takes fewer reads than the poll limit; nothing else changes. */
  lemma {:induction false} PolledDeletion<K, V>(s: Store<K, V>, key: K, polls: nat)
    requires key in s.stored && key in s.leaving
    decreases polls
    ensures
      s.Polled(key, polls) ==
      if s.leaving[key] < polls then s.(stored := s.stored - {key}, leaving := s.leaving - {key})
      else s.(leaving := s.leaving[key := s.leaving[key] - polls])
  {
    if polls == 0 {
      assert s.leaving[key := s.leaving[key]] == s.leaving;
    } else if s.leaving[key] > 0 {
      var t := s.AfterGet(key);
      PolledDeletion(t, key, polls - 1);
      assert t.leaving - {key} == s.leaving - {key};
      if s.leaving[key] >= polls {
        assert t.leaving[key := t.leaving[key] - (polls - 1)] == s.leaving[key := s.leaving[key] - polls];
      }
    }
  }

  /** Without a deletion the polls change nothing. */
  lemma {:induction false} PolledInPlace<K, V>(s: Store<K, V>, key: K, polls: nat)
    requires key !in s.leaving
    ensures s.Polled(key, polls) == s
  {
    if polls > 0 && s.Seen(key).Some? {
      PolledInPlace(s, key, polls - 1);
    }
  }

  /** What there is under a key, and how far its deletion is. */
  function At<K, V>(s: Store<K, V>, key: K): (Option<V>, Option<nat>) {
    (if key in s.stored then Some(s.stored[key]) else None, if key in s.leaving then Some(s.leaving[key]) else None)
  }

  lemma GetElsewhere<K, V>(s: Store<K, V>, key: K, other: K)
    requires other != key
    ensures At(s.AfterGet(key), other) == At(s, other)
  {
  }

  lemma CallsElsewhere<K, V>(s: Store<K, V>, key: K, v: V, lag: nat, other: K)
    requires other != key
    ensures At(s.Created(key, v), other) == At(s.Replaced(key, v), other) == At(s, other)
    ensures At(s.Deleted(key, lag), other) == At(s.Refused(), other) == At(s, other)
  {
  }

  lemma {:induction false} PolledElsewhere<K, V>(s: Store<K, V>, key: K, polls: nat, other: K)
    requires other != key
    ensures At(s.Polled(key, polls), other) == At(s, other)
    decreases polls
  {
    if polls > 0 && s.Seen(key).Some? {
      PolledElsewhere(s.AfterGet(key), key, polls - 1, other);
    }
  }
}
