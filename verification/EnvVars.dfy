/** operator/sargenerator/sargenerator.go: the in-place merge of environment variables. */
module EnvVars {
  import opened KubeTypes

  type Desired = map<string, EnvVar>

  predicate WellNamed(desired: Desired) {
    forall n :: n in desired ==> desired[n].name == n
  }

  predicate Names(env: seq<EnvVar>, n: string) {
    exists i :: 0 <= i < |env| && env[i].name == n
  }

  /** Entry i is the one the merge replaces: the first of a desired name. */
  predicate Targeted(env: seq<EnvVar>, desired: Desired, i: nat)
    requires i < |env|
  {
    env[i].name in desired && !Names(env[..i], env[i].name)
  }

  /** Existing entries in place, the first of each desired name with its desired value. */
  function Overlaid(env: seq<EnvVar>, desired: Desired): seq<EnvVar> {
    seq(|env|, i requires 0 <= i < |env| => if Targeted(env, desired, i) then desired[env[i].name] else env[i])
  }

  /** The desired entries that `env` lacks, in the order a Go map iteration meets them. */
  function Missing(env: seq<EnvVar>, desired: Desired, order: seq<string>): seq<EnvVar> {
    if order == [] then []
    else
      var n := order[|order| - 1];
      Missing(env, desired, order[..|order| - 1]) + if n in desired && !Names(env, n) then [desired[n]] else []
  }

  function Merged(env: seq<EnvVar>, desired: Desired, order: seq<string>): seq<EnvVar> {
    Overlaid(env, desired) + Missing(env, desired, order)
  }

  /** `order` meets every desired name exactly once. */
  ghost predicate IsOrder(order: seq<string>, desired: Desired) {
    && (forall n :: n in order <==> n in desired)
    && forall i, j :: 0 <= i < j < |order| ==> order[i] != order[j]
  }

  /** Nothing left to do: each desired name is there and its first entry is the desired one. */
  ghost predicate Agrees(env: seq<EnvVar>, desired: Desired) {
    && (forall n :: n in desired ==> Names(env, n))
    && (forall i :: 0 <= i < |env| && Targeted(env, desired, i) ==> env[i] == desired[env[i].name])
  }

  ghost predicate DistinctNames(env: seq<EnvVar>) {
    forall i, j :: 0 <= i < j < |env| ==> env[i].name != env[j].name
  }

  lemma NamesSnoc(env: seq<EnvVar>, e: EnvVar, n: string)
    ensures Names(env + [e], n) <==> Names(env, n) || e.name == n
  {
    if Names(env, n) {
      var i :| 0 <= i < |env| && env[i].name == n;
      assert (env + [e])[i].name == n;
    }
    assert (env + [e])[|env|] == e;
  }

  lemma NamesConcat(a: seq<EnvVar>, b: seq<EnvVar>, n: string)
    ensures Names(a + b, n) <==> Names(a, n) || Names(b, n)
  {
    if Names(a, n) {
      var i :| 0 <= i < |a| && a[i].name == n;
      assert (a + b)[i].name == n;
    }
    if Names(b, n) {
      var i :| 0 <= i < |b| && b[i].name == n;
      assert (a + b)[|a| + i].name == n;
    }
  }

  /** Exactly the missing desired names are added. */
  lemma {:induction false} MissingNames(env: seq<EnvVar>, desired: Desired, order: seq<string>, n: string)
    requires WellNamed(desired)
    ensures Names(Missing(env, desired, order), n) <==> n in order && n in desired && !Names(env, n)
  {
    if order != [] {
      var k := |order| - 1;
      MissingNames(env, desired, order[..k], n);
      assert order == order[..k] + [order[k]];
      if order[k] in desired && !Names(env, order[k]) {
        NamesSnoc(Missing(env, desired, order[..k]), desired[order[k]], n);
      } else {
        assert Missing(env, desired, order) == Missing(env, desired, order[..k]);
      }
    }
  }

  /** Each with its desired value, and only once. */
  lemma {:induction false} MissingEntries(env: seq<EnvVar>, desired: Desired, order: seq<string>)
    requires WellNamed(desired)
    requires forall i, j :: 0 <= i < j < |order| ==> order[i] != order[j]
    ensures forall e :: e in Missing(env, desired, order) ==>
              e.name in desired && e == desired[e.name] && !Names(env, e.name)
    ensures DistinctNames(Missing(env, desired, order))
  {
    if order != [] {
      var k := |order| - 1;
      MissingEntries(env, desired, order[..k]);
      MissingNames(env, desired, order[..k], order[k]);
      assert order[k] !in order[..k];
    }
  }

  lemma {:induction false} NothingMissing(env: seq<EnvVar>, desired: Desired, order: seq<string>)
    requires forall n :: n in order ==> Names(env, n)
    ensures Missing(env, desired, order) == []
  {
    if order != [] {
      NothingMissing(env, desired, order[..|order| - 1]);
    }
  }

  lemma OverlaidNames(env: seq<EnvVar>, desired: Desired, k: nat, n: string)
    requires WellNamed(desired) && k <= |env|
    ensures Names(Overlaid(env, desired)[..k], n) <==> Names(env[..k], n)
  {
    var o := Overlaid(env, desired);
    assert forall i :: 0 <= i < |env| ==> o[i].name == env[i].name;
    if Names(o[..k], n) {
      var i :| 0 <= i < k && o[..k][i].name == n;
      assert env[..k][i].name == n;
    }
    if Names(env[..k], n) {
      var i :| 0 <= i < k && env[..k][i].name == n;
      assert o[..k][i].name == n;
    }
  }

  lemma MergedNames(env: seq<EnvVar>, desired: Desired, order: seq<string>, n: string)
    requires WellNamed(desired) && IsOrder(order, desired)
    ensures Names(Merged(env, desired, order), n) <==> Names(env, n) || n in desired
  {
    MissingNames(env, desired, order, n);
    OverlaidNames(env, desired, |env|, n);
    assert Overlaid(env, desired)[..|env|] == Overlaid(env, desired) && env[..|env|] == env;
    NamesConcat(Overlaid(env, desired), Missing(env, desired, order), n);
  }

  /** After a merge there is nothing left to do. */
  lemma MergedAgrees(env: seq<EnvVar>, desired: Desired, order: seq<string>)
    requires WellNamed(desired) && IsOrder(order, desired)
    ensures Agrees(Merged(env, desired, order), desired)
  {
    var o, m := Overlaid(env, desired), Merged(env, desired, order);
    MissingEntries(env, desired, order);
    forall n | n in desired ensures Names(m, n) { MergedNames(env, desired, order, n); }
    forall i | 0 <= i < |m| && Targeted(m, desired, i) ensures m[i] == desired[m[i].name] {
      if i < |env| {
        assert m[..i] == o[..i];
        OverlaidNames(env, desired, i, env[i].name);
      } else {
        assert m[i] in Missing(env, desired, order);
      }
    }
  }

  /** The merge changes nothing exactly when there was nothing to do. */
  lemma UnchangedIffAgrees(env: seq<EnvVar>, desired: Desired, order: seq<string>)
    requires WellNamed(desired) && IsOrder(order, desired)
    ensures Merged(env, desired, order) == env <==> Agrees(env, desired)
  {
    if Agrees(env, desired) {
      NothingMissing(env, desired, order);
      assert Overlaid(env, desired) == env;
    }
    if Merged(env, desired, order) == env {
      MergedAgrees(env, desired, order);
    }
  }

  /** Names stay distinct, existing entries keep their places and their names, and are untouched unless desired;
      the names added are exactly the missing desired ones, each once. */
  lemma MergeKeepsPlaces(env: seq<EnvVar>, desired: Desired, order: seq<string>)
    requires WellNamed(desired) && IsOrder(order, desired) && DistinctNames(env)
    ensures
      var m := Merged(env, desired, order);
      && DistinctNames(m) && |m| >= |env|
      && (forall i :: 0 <= i < |env| ==> m[i] == if env[i].name in desired then desired[env[i].name] else env[i])
      && (forall i :: |env| <= i < |m| ==> m[i].name in desired && m[i] == desired[m[i].name] && !Names(env, m[i].name))
      && (forall n :: n in desired ==> Names(m, n))
  {
    var m := Merged(env, desired, order);
    MissingEntries(env, desired, order);
    forall i | 0 <= i < |env| ensures m[i] == if env[i].name in desired then desired[env[i].name] else env[i] {
      assert !Names(env[..i], env[i].name);
    }
    forall i | |env| <= i < |m|
      ensures m[i].name in desired && m[i] == desired[m[i].name] && !Names(env, m[i].name)
    {
      assert m[i] in Missing(env, desired, order);
    }
    forall n | n in desired ensures Names(m, n) { MergedNames(env, desired, order, n); }
  }
}
