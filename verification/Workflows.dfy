/** apiserver/pkg/config/workflows.go: the store of workflow configurations, kept by a watch and by
    periodic resyncs. */
module Workflows {
  import opened Wrappers
  import S = Scaling

  datatype Workflow = Workflow(
    name: string, namespace: string, token: string, owner: string, repository: string, scaling: S.Scaling)

  /** A ScaledActionRunner as listed; `token` is None when its GitHub secret cannot be read. */
  datatype Runner = Runner(
    name: string, namespace: string, owner: string, repository: string, scaling: S.Scaling, token: Option<string>)

  /** workflowFromScaledActionRunner */
  function Convert(r: Runner): (w: Option<Workflow>)
    ensures w.Some? ==> w.value.name == r.name
  {
    if r.token.None? then None
    else Some(Workflow(r.name, r.namespace, r.token.value, r.owner, r.repository, r.scaling))
  }

  /** What one namespaced client answered to List. */
  datatype Listing = ListFailed | Listed(items: seq<Runner>)

  datatype WatchEvent =
    | Added(runner: Runner)
    | Modified(runner: Runner)
    | Deleted(runner: Runner)
    | OtherEvent(runner: Runner)
    | NotARunner

  datatype Event = Resync(listings: seq<Listing>) | Watch(event: WatchEvent)

  type Store = map<string, Workflow>

  function AllRunners(listings: seq<Listing>): seq<Runner> {
    if listings == [] then []
    else
      var rest := AllRunners(listings[..|listings| - 1]);
      match listings[|listings| - 1]
      case ListFailed => rest
      case Listed(items) => rest + items
  }

  ghost predicate AllConvert(runners: seq<Runner>) {
    forall r :: r in runners ==> Convert(r).Some?
  }

  /** The last runner of that name that converts, if any. */
  function LastNamed(runners: seq<Runner>, name: string): Option<Workflow> {
    if runners == [] then None
    else
      var last := runners[|runners| - 1];
      if last.name == name && Convert(last).Some? then Convert(last)
      else LastNamed(runners[..|runners| - 1], name)
  }

  /** The store after a resync, name by name. */
  ghost predicate IsResynced(before: Store, runners: seq<Runner>, after: Store) {
    forall name ::
      var found := LastNamed(runners, name);
      if found.Some? then name in after && after[name] == found.value
      else if AllConvert(runners) then name !in after
      else (name in after <==> name in before) && (name in before ==> after[name] == before[name])
  }

  function AppliedWatch(store: Store, e: WatchEvent): Store {
    match e
    case NotARunner => store
    case OtherEvent(r) => store
    case Deleted(r) => if Convert(r).Some? then store - {r.name} else store
    case Added(r) => if Convert(r).Some? then store[r.name := Convert(r).value] else store
    case Modified(r) => if Convert(r).Some? then store[r.name := Convert(r).value] else store
  }

  ghost predicate OwnNames(store: Store) {
    forall name :: name in store ==> store[name].name == name
  }

  class Config {
    var store: Store

    constructor ()
      ensures store == map[]
    {
      store := map[];
    }

    method CopyAllWorkflows(listings: seq<Listing>)
      modifies this
      ensures IsResynced(old(store), AllRunners(listings), store)
    {
      var runners: seq<Runner> := [];
      for i := 0 to |listings|
        invariant runners == AllRunners(listings[..i])
      {
        assert listings[..i + 1][..i] == listings[..i];
        match listings[i]
        case ListFailed =>
        case Listed(items) => runners := runners + items;
      }
      assert listings[..|listings|] == listings;

      var purgeOld := true;
      var toCache: seq<Workflow> := [];
      for i := 0 to |runners|
        invariant purgeOld <==> AllConvert(runners[..i])
        invariant forall name :: LastNamed(runners[..i], name) == LastCached(toCache, name)
      {
        assert runners[..i + 1] == runners[..i] + [runners[i]];
        assert runners[..i + 1][..i] == runners[..i];
        var wf := Convert(runners[i]);
        if wf.None? {
          purgeOld := false;
        } else {
          ghost var before := toCache;
          toCache := toCache + [wf.value];
          assert toCache[..|toCache| - 1] == before;
        }
      }
      assert runners[..|runners|] == runners;

      if purgeOld {
        Replace(toCache);
      } else {
        for i := 0 to |toCache|
          invariant IsUpdated(old(store), toCache[..i], store)
        {
          assert toCache[..i + 1][..i] == toCache[..i];
          Update(toCache[i]);
        }
        assert toCache[..|toCache|] == toCache;
      }
    }

    /** cache.Store.Replace: the new contents are exactly the list, the last of a name winning. */
    method Replace(items: seq<Workflow>)
      modifies this
      ensures IsUpdated(map[], items, store)
    {
      store := map[];
      for i := 0 to |items|
        invariant IsUpdated(map[], items[..i], store)
      {
        assert items[..i + 1][..i] == items[..i];
        Update(items[i]);
      }
      assert items[..|items|] == items;
    }

    /** cache.Store.Add and Update */
    method Update(wf: Workflow)
      modifies this
      ensures store == old(store)[wf.name := wf]
    {
      store := store[wf.name := wf];
    }

    method HandleWatch(e: WatchEvent)
      modifies this
      ensures store == AppliedWatch(old(store), e)
    {
      if e.NotARunner? {
        return;
      }
      var wf := Convert(e.runner);
      if wf.None? {
        return;
      }
      match e
      case Added(_) => Update(wf.value);
      case Modified(_) => Update(wf.value);
      case Deleted(_) => store := store - {wf.value.name};
      case OtherEvent(_) =>
    }

    method GetWorkflow(key: string) returns (wf: Option<Workflow>)
      ensures wf == if key in store then Some(store[key]) else None
    {
      if key in store {
        wf := Some(store[key]);
      } else {
        wf := None;
      }
    }
  }

  function LastCached(items: seq<Workflow>, name: string): Option<Workflow> {
    if items == [] then None
    else if items[|items| - 1].name == name then Some(items[|items| - 1])
    else LastCached(items[..|items| - 1], name)
  }

  ghost predicate IsUpdated(before: Store, items: seq<Workflow>, after: Store) {
    forall name ::
      var found := LastCached(items, name);
      if found.Some? then name in after && after[name] == found.value
      else (name in after <==> name in before) && (name in before ==> after[name] == before[name])
  }

  // ---------------------------------------------------------------------------------------------
  // Histories

  ghost predicate Step(before: Store, e: Event, after: Store) {
    match e
    case Resync(listings) => IsResynced(before, AllRunners(listings), after)
    case Watch(w) => after == AppliedWatch(before, w)
  }

  /** `stores[i]` is the store before event i. */
  ghost predicate History(events: seq<Event>, stores: seq<Store>) {
    && |stores| == |events| + 1
    && stores[0] == map[]
    && forall i :: 0 <= i < |events| ==> Step(stores[i], events[i], stores[i + 1])
  }

  /** Runner i is the last of its name that converts. */
  ghost predicate IsLastNamed(runners: seq<Runner>, name: string, i: int) {
    && 0 <= i < |runners| && runners[i].name == name && Convert(runners[i]).Some?
    && forall j :: i < j < |runners| ==> runners[j].name != name || Convert(runners[j]).None?
  }

  lemma {:induction false} LastNamedIsLast(runners: seq<Runner>, name: string)
    ensures
      match LastNamed(runners, name)
      case None => forall r :: r in runners && r.name == name ==> Convert(r).None?
      case Some(wf) => exists i :: IsLastNamed(runners, name, i) && Convert(runners[i]) == Some(wf)
  {
    if runners != [] {
      var n := |runners| - 1;
      LastNamedIsLast(runners[..n], name);
      assert runners == runners[..n] + [runners[n]];
      if runners[n].name == name && Convert(runners[n]).Some? {
        assert IsLastNamed(runners, name, n);
      } else if LastNamed(runners[..n], name).Some? {
        var i :| IsLastNamed(runners[..n], name, i) && Convert(runners[..n][i]) == LastNamed(runners[..n], name);
        assert IsLastNamed(runners, name, i) by {
          forall j | i < j < n ensures runners[j].name != name || Convert(runners[j]).None? {
            assert runners[..n][j] == runners[j];
          }
        }
      }
    }
  }

  /** After any history every entry sits under its own name. */
  lemma {:induction false} EveryEntryUnderItsName(events: seq<Event>, stores: seq<Store>, i: nat)
    requires History(events, stores) && i <= |events|
    ensures OwnNames(stores[i])
  {
    if i > 0 {
      EveryEntryUnderItsName(events, stores, i - 1);
      assert Step(stores[i - 1], events[i - 1], stores[i]);
      if events[i - 1].Resync? {
        var runners := AllRunners(events[i - 1].listings);
        forall name | name in stores[i] ensures stores[i][name].name == name {
          LastNamedIsLast(runners, name);
        }
      }
    }
  }

  /** A resync in which some conversion fails loses no name, and overwrites exactly the successes. */
  lemma FailedResyncPurgesNothing(before: Store, runners: seq<Runner>, after: Store)
    requires IsResynced(before, runners, after) && !AllConvert(runners)
    ensures before.Keys <= after.Keys
    ensures forall name :: name in after ==>
      after[name] == if LastNamed(runners, name).Some? then LastNamed(runners, name).value
                     else if name in before then before[name] else after[name]
    ensures forall name :: name in after.Keys - before.Keys ==>
              exists r :: r in runners && r.name == name && Convert(r).Some?
  {
    forall name | name in after.Keys - before.Keys
      ensures exists r :: r in runners && r.name == name && Convert(r).Some?
    {
      LastNamedIsLast(runners, name);
    }
  }

  /** A resync in which every conversion succeeds determines the store whatever happened before: it is
      the listed runners, the last of a name winning (LastNamedIsLast). */
  lemma CleanResyncForgetsThePast(before: Store, before': Store, runners: seq<Runner>, after: Store, after': Store)
    requires AllConvert(runners)
    requires IsResynced(before, runners, after) && IsResynced(before', runners, after')
    ensures after == after'
    ensures forall name :: name in after <==> exists r :: r in runners && r.name == name
  {
    forall name ensures name in after <==> exists r :: r in runners && r.name == name {
      LastNamedIsLast(runners, name);
    }
    assert after.Keys == after'.Keys;
  }

  lemma {:induction false} AllRunnersAreListed(listings: seq<Listing>, r: Runner)
    ensures r in AllRunners(listings) <==> IsListed(listings, r)
  {
    if listings != [] {
      var n := |listings| - 1;
      AllRunnersAreListed(listings[..n], r);
      assert listings == listings[..n] + [listings[n]];
      assert IsListed(listings, r) <==>
             IsListed(listings[..n], r) || (listings[n].Listed? && r in listings[n].items);
    }
  }

  /** Some listing succeeded and names this runner. */
  ghost predicate IsListed(listings: seq<Listing>, r: Runner) {
    exists l :: l in listings && l.Listed? && r in l.items
  }

  /** So a workflow survives a resync without conversion failures exactly when some listing that
      succeeded names it: a listing that failed does not hold the purge back. */
  lemma SurvivesCleanResyncIff(before: Store, listings: seq<Listing>, after: Store, name: string)
    requires IsResynced(before, AllRunners(listings), after)
    requires forall r :: IsListed(listings, r) ==> Convert(r).Some?
    ensures name in after <==> exists r :: IsListed(listings, r) && r.name == name
  {
    var runners := AllRunners(listings);
    forall r ensures r in runners <==> IsListed(listings, r) {
      AllRunnersAreListed(listings, r);
    }
    CleanResyncForgetsThePast(before, before, runners, after, after);
    if name in after {
      var r :| r in runners && r.name == name;
      assert IsListed(listings, r);
    }
  }

  /** The workflow is the runner's, field by field. */
  ghost predicate IsOf(wf: Workflow, r: Runner) {
    && wf.name == r.name && wf.namespace == r.namespace && wf.owner == r.owner && wf.repository == r.repository
    && wf.scaling == r.scaling && r.token == Some(wf.token)
  }

  lemma {:induction false} LastNamedIsOf(runners: seq<Runner>, name: string) returns (i: nat)
    requires LastNamed(runners, name).Some?
    ensures i < |runners| && runners[i].name == name && IsOf(LastNamed(runners, name).value, runners[i])
    ensures forall j :: i < j < |runners| && runners[j].name == name ==> runners[j].token.None?
  {
    var n := |runners| - 1;
    if runners[n].name == name && runners[n].token.Some? {
      i := n;
    } else {
      i := LastNamedIsOf(runners[..n], name);
    }
  }

  /** After a resync, an entry is the configuration of the last runner of its name whose token could be read, or
      it is what was there before. */
  lemma EntriesAreRunners(before: Store, runners: seq<Runner>, after: Store, name: string)
    requires IsResynced(before, runners, after) && name in after
    ensures (exists i :: 0 <= i < |runners| && runners[i].name == name && IsOf(after[name], runners[i])
              && forall j :: i < j < |runners| && runners[j].name == name ==> runners[j].token.None?)
            || (name in before && after[name] == before[name])
  {
    if LastNamed(runners, name).Some? {
      var i := LastNamedIsOf(runners, name);
    }
  }

  /** A watch event puts the runner's configuration in, or takes it out, if the token can be read; and nothing else. */
  lemma WatchFollows(store: Store, e: WatchEvent, name: string)
    ensures
      var after := AppliedWatch(store, e);
      var mine := !e.NotARunner? && e.runner.name == name && e.runner.token.Some?;
      if mine && (e.Added? || e.Modified?) then name in after && IsOf(after[name], e.runner)
      else if mine && e.Deleted? then name !in after
      else (name in after <==> name in store) && (name in store ==> after[name] == store[name])
  {
  }
}
