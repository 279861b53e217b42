/** What the two passes of the core reconciler do, for every way the API server may answer. */
module CoreRuns {
  import opened Wrappers
  import opened ApiServer
  import opened CoreController

  ghost predicate Fresh(o: ObjValue) {
    o.kind == o.ident.kind && o.kind != Blank && o.version == ""
  }

  ghost predicate AllFresh(objs: seq<ObjValue>) {
    forall i :: 0 <= i < |objs| ==> Fresh(objs[i])
  }

  ghost predicate AllValid(answers: seq<Answer>) {
    forall i :: 0 <= i < |answers| ==> answers[i].Valid()
  }

  /** The prerequisites among the first n objects, or the others, in their order. */
  function Indices(objs: seq<ObjValue>, n: nat, preReqs: bool): (r: seq<nat>)
    requires n <= |objs|
    ensures forall k: nat :: k in r <==> k < n && IsPreReq(objs[k].ident.kind) == preReqs
  {
    if n == 0 then []
    else Indices(objs, n - 1, preReqs) + if IsPreReq(objs[n - 1].ident.kind) == preReqs then [n - 1] else []
  }

  /** An object that is still as it was generated, or was placed: then it has its kind, or has lost it and has
      a version. */
  ghost predicate Placeable(o: ObjValue, original: ObjValue, placed: bool) {
    && o.ident == original.ident && o.crdKey == original.crdKey
    && if placed then o.kind == original.kind || (o.kind == Blank && o.version != "") else o == original
  }

  lemma PlacedKeepsKey(s: Objects, o: ObjValue, a: Answer)
    ensures Placed(s, o, a).1.ident == o.ident && Placed(s, o, a).1.crdKey == o.crdKey
  {
  }

  /** The first pass so far: the prerequisites are handled, the others are as generated. */
  ghost predicate FirstPass(p: Pass, objs: seq<ObjValue>, n: nat) {
    && n <= |objs| == |p.objs|
    && if p.failed then p.handled <= Indices(objs, n, true)
       else
         p.handled == Indices(objs, n, true)
         && forall i :: 0 <= i < |objs| ==> Placeable(p.objs[i], objs[i], i < n && IsPreReq(objs[i].ident.kind))
  }

  lemma {:induction false} FirstPassHandles(objects: Objects, objs: seq<ObjValue>, answers: seq<Answer>, n: nat)
    requires n <= |objs| == |answers| && AllFresh(objs) && AllValid(answers)
    ensures FirstPass(Visited(Start(objects, objs), n, answers, true), objs, n)
  {
    if n > 0 {
      var p := Visited(Start(objects, objs), n - 1, answers, true);
      FirstPassHandles(objects, objs, answers, n - 1);
      FirstPassVisit(p, objs, n, answers[n - 1]);
    }
  }

  lemma FirstPassVisit(p: Pass, objs: seq<ObjValue>, n: nat, a: Answer)
    requires 0 < n <= |objs| && Fresh(objs[n - 1]) && a.Valid() && FirstPass(p, objs, n - 1)
    ensures FirstPass(Visit(p, n - 1, a, true), objs, n)
  {
  }

  ghost predicate SecondPass(p: Pass, objs: seq<ObjValue>, first: Pass, n: nat) {
    && n <= |objs| == |p.objs| == |first.objs|
    && var others := Indices(objs, n, false);
       if p.failed then p.handled <= first.handled + others
       else
         p.handled == first.handled + others
         && forall i :: n <= i < |objs| ==> p.objs[i] == first.objs[i]
  }

  lemma {:induction false} SecondPassHandles(first: Pass, objs: seq<ObjValue>, answers: seq<Answer>, n: nat)
    requires n <= |objs| == |answers| && AllFresh(objs) && AllValid(answers)
    requires !first.failed && FirstPass(first, objs, |objs|)
    ensures SecondPass(Visited(first, n, answers, false), objs, first, n)
  {
    if n > 0 {
      SecondPassHandles(first, objs, answers, n - 1);
      SecondPassVisit(first, Visited(first, n - 1, answers, false), objs, n, answers[n - 1]);
    }
  }

  lemma SecondPassVisit(first: Pass, p: Pass, objs: seq<ObjValue>, n: nat, a: Answer)
    requires 0 < n <= |objs| && Fresh(objs[n - 1])
    requires !first.failed && FirstPass(first, objs, |objs|) && SecondPass(p, objs, first, n - 1)
    ensures SecondPass(Visit(p, n - 1, a, false), objs, first, n)
  {
  }

  /** Each object is handled exactly once over the two passes, prerequisites first, whether or not writing blanks
      its kind; after a failure nothing more is handled. */
  lemma {:induction false} HandledOnce(objects: Objects, objs: seq<ObjValue>, answers: seq<Answer>)
    requires |objs| == |answers| && AllFresh(objs) && AllValid(answers)
    ensures
      var r, all := Deployed(objects, objs, answers), Indices(objs, |objs|, true) + Indices(objs, |objs|, false);
      if r.failed then r.handled <= all else r.handled == all
  {
    FirstPassHandles(objects, objs, answers, |objs|);
    var first := Visited(Start(objects, objs), |objs|, answers, true);
    if first.failed {
      FailedPassStops(first, |objs|, answers, false);
      assert first.handled == (Indices(objs, |objs|, true) + Indices(objs, |objs|, false))[..|first.handled|];
    } else {
      SecondPassHandles(first, objs, answers, |objs|);
    }
  }

  lemma {:induction false} IndicesCount(objs: seq<ObjValue>, n: nat, preReqs: bool, i: nat)
    requires n <= |objs|
    ensures multiset(Indices(objs, n, preReqs))[i] == if i < n && IsPreReq(objs[i].ident.kind) == preReqs then 1 else 0
  {
    if n > 0 {
      IndicesCount(objs, n - 1, preReqs, i);
    }
  }

  /** "All of them": every index once. */
  lemma {:induction false} EveryIndexOnce(objs: seq<ObjValue>, i: nat)
    ensures
      multiset(Indices(objs, |objs|, true) + Indices(objs, |objs|, false))[i] == if i < |objs| then 1 else 0
  {
    IndicesCount(objs, |objs|, true, i);
    IndicesCount(objs, |objs|, false, i);
  }

  // ---------------------------------------------------------------------------------------------
  // Keys

  ghost predicate Carries(s: Objects, ident: Ident, key: string) {
    ident in s.stored && s.stored[ident].crdKey == Some(key)
  }

  ghost predicate AllKeyed(objs: seq<ObjValue>, key: string) {
    forall i :: 0 <= i < |objs| ==> objs[i].crdKey == Some(key)
  }

  ghost predicate AllCarry(s: Objects, objs: seq<ObjValue>, key: string) {
    forall i :: 0 <= i < |objs| ==> Carries(s, objs[i].ident, key)
  }

  lemma MadeElsewhere(s: Objects, o: ObjValue, a: Answer, other: Ident)
    requires other != o.ident
    ensures At(Made(s, o, a).0, other) == At(s, other)
  {
  }

  lemma PlacedElsewhere(s: Objects, o: ObjValue, a: Answer, other: Ident)
    requires other != o.ident
    ensures At(Placed(s, o, a).0, other) == At(s, other)
  {
    var t, polls := s.AfterGet(o.ident), PollsMade(CoreController.POLLS, a.pollReads);
    var deleted := if a.deleteFails then t.Refused().Refused() else t.Refused().Deleted(o.ident, a.lag);
    GetElsewhere(s, o.ident, other);
    CallsElsewhere(t, o.ident, Stored(a.version, o.crdKey), 0, other);
    PolledElsewhere(deleted, o.ident, polls, other);
    MadeElsewhere(t, o, a, other);
    MadeElsewhere(deleted.Polled(o.ident, polls), o.(version := ""), a, other);
  }

  /** An object is placed without failure only with its key, and takes no other object's key away, whatever is
      being deleted meanwhile. */
  lemma PlacedCarries(s: Objects, o: ObjValue, a: Answer, key: string, other: Ident)
    requires o.crdKey == Some(key) && Placed(s, o, a).2 != Failed
    ensures Carries(Placed(s, o, a).0, o.ident, key)
    ensures Carries(s, other, key) ==> Carries(Placed(s, o, a).0, other, key)
  {
    if other != o.ident {
      PlacedElsewhere(s, o, a, other);
    }
  }

  /** With nothing being deleted, nothing is afterwards, and an object is left alone exactly if it has its key. */
  lemma PlacedAtRest(s: Objects, o: ObjValue, a: Answer, key: string)
    requires s.leaving == map[] && o.crdKey == Some(key) && Placed(s, o, a).2 != Failed
    ensures
      var (s', _, outcome) := Placed(s, o, a);
      && s'.leaving == map[]
      && (outcome == Unchanged <==> Carries(s, o.ident, key))
      && (outcome == Unchanged ==> s' == s)
  {
    if s.Seen(o.ident).Some? && s.stored[o.ident].crdKey != o.crdKey && a.updateFails {
      var refused := s.Refused();
      var deleted := if a.deleteFails then refused.Refused() else refused.Deleted(o.ident, a.lag);
      if a.deleteFails {
        PolledInPlace(deleted, o.ident, PollsMade(CoreController.POLLS, a.pollReads));
      } else {
        PolledDeletion(deleted, o.ident, PollsMade(CoreController.POLLS, a.pollReads));
        assert deleted.leaving - {o.ident} == map[];
      }
    }
  }

  ghost predicate SameKeys(p: Pass, objs: seq<ObjValue>, key: string) {
    && |p.objs| == |objs|
    && forall i :: 0 <= i < |objs| ==> p.objs[i].ident == objs[i].ident && p.objs[i].crdKey == Some(key)
  }

  ghost predicate HandledCarry(p: Pass, objs: seq<ObjValue>, key: string) {
    forall k :: k in p.handled ==> k < |objs| && Carries(p.objects, objs[k].ident, key)
  }

  ghost predicate KeyedPass(p: Pass, start: Objects, objs: seq<ObjValue>, key: string) {
    && SameKeys(p, objs, key)
    && (!p.failed ==> HandledCarry(p, objs, key))
    && (!p.failed && start.leaving == map[] ==> p.objects.leaving == map[] && (!p.changed ==> p.objects == start))
  }

  lemma VisitKeeps(p: Pass, start: Objects, objs: seq<ObjValue>, key: string, i: nat, a: Answer, preReqsOnly: bool)
    requires KeyedPass(p, start, objs, key) && i < |objs|
    ensures KeyedPass(Visit(p, i, a, preReqsOnly), start, objs, key)
  {
    var r := Visit(p, i, a, preReqsOnly);
    if !p.failed && !Skipped(p.objs[i], preReqsOnly) {
      PlacedKeepsKey(p.objects, p.objs[i], a);
      if !r.failed {
        PlacedCarries(p.objects, p.objs[i], a, key, p.objs[i].ident);
        if start.leaving == map[] {
          PlacedAtRest(p.objects, p.objs[i], a, key);
        }
        forall k | k in r.handled ensures Carries(r.objects, objs[k].ident, key) {
          if k != i {
            PlacedCarries(p.objects, p.objs[i], a, key, objs[k].ident);
          }
        }
      }
    }
  }

  lemma VisitedKeeps(p: Pass, start: Objects, objs: seq<ObjValue>, key: string, n: nat, answers: seq<Answer>,
      preReqsOnly: bool)
    requires 0 < n <= |objs| == |answers| == |p.objs|
        && KeyedPass(Visited(p, n - 1, answers, preReqsOnly), start, objs, key)
    ensures KeyedPass(Visited(p, n, answers, preReqsOnly), start, objs, key)
  {
    VisitKeeps(Visited(p, n - 1, answers, preReqsOnly), start, objs, key, n - 1, answers[n - 1], preReqsOnly);
  }

  lemma {:induction false} PassKeeps(p: Pass, start: Objects, objs: seq<ObjValue>, key: string, n: nat,
      answers: seq<Answer>, preReqsOnly: bool)
    requires KeyedPass(p, start, objs, key) && n <= |objs| == |answers|
    ensures KeyedPass(Visited(p, n, answers, preReqsOnly), start, objs, key)
  {
    if n > 0 {
      PassKeeps(p, start, objs, key, n - 1, answers, preReqsOnly);
      VisitedKeeps(p, start, objs, key, n, answers, preReqsOnly);
    }
  }

  lemma DeployedKeeps(objects: Objects, objs: seq<ObjValue>, key: string, answers: seq<Answer>)
    requires AllKeyed(objs, key) && |objs| == |answers|
    ensures KeyedPass(Deployed(objects, objs, answers), objects, objs, key)
  {
    var start := Start(objects, objs);
    PassKeeps(start, objects, objs, key, |objs|, answers, true);
    PassKeeps(Visited(start, |objs|, answers, true), objects, objs, key, |objs|, answers, false);
  }

  /** After a reconcile without error every object carries the current key, from any start; if nothing was being
      deleted before, nothing is afterwards. */
  lemma AllCarryAfterSuccess(objects: Objects, objs: seq<ObjValue>, key: string, answers: seq<Answer>)
    requires |objs| == |answers| && AllFresh(objs) && AllKeyed(objs, key) && AllValid(answers)
    requires !Deployed(objects, objs, answers).failed
    ensures AllCarry(Deployed(objects, objs, answers).objects, objs, key)
    ensures objects.leaving == map[] ==> Deployed(objects, objs, answers).objects.leaving == map[]
  {
    var r := Deployed(objects, objs, answers);
    DeployedKeeps(objects, objs, key, answers);
    HandledOnce(objects, objs, answers);
    forall i | 0 <= i < |objs| ensures Carries(r.objects, objs[i].ident, key) {
      assert i in Indices(objs, |objs|, true) || i in Indices(objs, |objs|, false);
      assert i in r.handled;
    }
  }

  // ---------------------------------------------------------------------------------------------
  // A reconcile that changes nothing

  /** What reads of this object find; a deletion under way may let it vanish. */
  ghost predicate SeenKeyed(s: Objects, o: ObjValue) {
    o.crdKey.Some? && s.Seen(o.ident).Some? && s.Seen(o.ident).value.crdKey == o.crdKey
  }

  ghost predicate AllSeenKeyed(s: Objects, objs: seq<ObjValue>) {
    forall i :: 0 <= i < |objs| ==> SeenKeyed(s, objs[i])
  }

  ghost predicate DistinctIdents(objs: seq<ObjValue>) {
    forall i, j :: 0 <= i < j < |objs| ==> objs[i].ident != objs[j].ident
  }

  /** No object gets in the way of another: they are different to the server, or none is being deleted. */
  ghost predicate Separate(s: Objects, objs: seq<ObjValue>) {
    DistinctIdents(objs) || s.leaving == map[]
  }

  /** The first pass has come to the n-th object, or the second one has. */
  predicate Passed(o: ObjValue, i: nat, n: nat, preReqsOnly: bool) {
    if preReqsOnly then i < n && IsPreReq(o.kind) else i < n || IsPreReq(o.kind)
  }

  /** So far nothing was written: objects not visited are as they were, and those visited were there with their key. */
  ghost predicate Quiet(p: Pass, s: Objects, objs: seq<ObjValue>, n: nat, preReqsOnly: bool) {
    && n <= |objs| && p.objs == objs && !p.changed && p.objects.writes == s.writes
    && (s.leaving == map[] ==> p.objects == s)
    && (!p.failed ==> forall i :: 0 <= i < |objs| ==>
         if Passed(objs[i], i, n, preReqsOnly) then SeenKeyed(s, objs[i])
         else At(p.objects, objs[i].ident) == At(s, objs[i].ident))
  }

  /** Either something was written, or the pass is quiet. */
  ghost predicate QuietUnlessChanged(p: Pass, s: Objects, objs: seq<ObjValue>, n: nat, preReqsOnly: bool) {
    p.changed || p.failed || Quiet(p, s, objs, n, preReqsOnly)
  }

  /** Calls that all succeed. */
  predicate Smooth(a: Answer) {
    !a.getFails && !a.updateFails && !a.createFails
  }

  lemma SameView(s: Objects, t: Objects, o: ObjValue)
    requires At(s, o.ident) == At(t, o.ident)
    ensures s.Seen(o.ident) == t.Seen(o.ident) && (SeenKeyed(s, o) <==> SeenKeyed(t, o))
  {
  }

  /** An object that a read finds with its key is left alone; one that is left alone was found so; and with
      successful calls any other is written. */
  lemma PlacedQuietly(s: Objects, o: ObjValue, a: Answer)
    ensures
      var (s', o', outcome) := Placed(s, o, a);
      && (outcome == Unchanged ==> SeenKeyed(s, o))
      && (SeenKeyed(s, o) ==> outcome != Changed && o' == o && (s' == s || s' == s.AfterGet(o.ident)))
      && (Smooth(a) && SeenKeyed(s, o) ==> outcome == Unchanged)
      && (Smooth(a) && !SeenKeyed(s, o) ==> outcome == Changed)
  {
  }

  lemma QuietVisit(p: Pass, s: Objects, objs: seq<ObjValue>, i: nat, a: Answer, preReqsOnly: bool)
    requires Quiet(p, s, objs, i, preReqsOnly) && i < |objs| && Fresh(objs[i]) && Separate(s, objs)
    ensures
      var r := Visit(p, i, a, preReqsOnly);
      && (AllSeenKeyed(s, objs) ==> Quiet(r, s, objs, i + 1, preReqsOnly))
      && QuietUnlessChanged(r, s, objs, i + 1, preReqsOnly)
      && (Smooth(a) && !p.failed ==> !r.failed)
  {
    if !p.failed && !Skipped(objs[i], preReqsOnly) {
      SameView(p.objects, s, objs[i]);
      PlacedQuietly(p.objects, objs[i], a);
      var r := Visit(p, i, a, preReqsOnly);
      forall j | 0 <= j < |objs| && objs[j].ident != objs[i].ident
        ensures At(r.objects, objs[j].ident) == At(p.objects, objs[j].ident)
      {
        PlacedElsewhere(p.objects, objs[i], a, objs[j].ident);
      }
      assert objs[i := objs[i]] == objs;
      assert DistinctIdents(objs) ==> forall j :: 0 <= j < |objs| && j != i ==> objs[j].ident != objs[i].ident;
    }
  }

  lemma {:induction false} QuietPass(p: Pass, s: Objects, objs: seq<ObjValue>, n: nat, answers: seq<Answer>,
      preReqsOnly: bool)
    requires Quiet(p, s, objs, 0, preReqsOnly) && n <= |objs| == |answers| && AllFresh(objs) && Separate(s, objs)
    ensures
      var r := Visited(p, n, answers, preReqsOnly);
      && (AllSeenKeyed(s, objs) ==> Quiet(r, s, objs, n, preReqsOnly))
      && QuietUnlessChanged(r, s, objs, n, preReqsOnly)
      && (AllSmooth(answers) && !p.failed ==> r.changed || !r.failed)
  {
    if n > 0 {
      QuietPass(p, s, objs, n - 1, answers, preReqsOnly);
      var q := Visited(p, n - 1, answers, preReqsOnly);
      if Quiet(q, s, objs, n - 1, preReqsOnly) {
        QuietVisit(q, s, objs, n - 1, answers[n - 1], preReqsOnly);
      }
    }
  }

  ghost predicate AllSmooth(answers: seq<Answer>) {
    forall i :: 0 <= i < |answers| ==> Smooth(answers[i])
  }

  /** A reconcile writes nothing, and leaves the objects in memory as they are. */
  ghost predicate Silent(s: Objects, objs: seq<ObjValue>, answers: seq<Answer>)
    requires |objs| == |answers|
  {
    var r := Deployed(s, objs, answers);
    !r.changed && r.objs == objs && r.objects.writes == s.writes && (s.leaving == map[] ==> r.objects == s)
  }

  /** Where reads find every object with its key, nothing is written however the server answers; where they do not,
      a reconcile that does not fail writes. */
  lemma SilentWhereSeen(s: Objects, objs: seq<ObjValue>, answers: seq<Answer>)
    requires |objs| == |answers| && AllFresh(objs) && Separate(s, objs)
    ensures AllSeenKeyed(s, objs) ==> Silent(s, objs, answers)
    ensures
      var r := Deployed(s, objs, answers);
      && (!r.failed && !r.changed ==> AllSeenKeyed(s, objs))
      && (AllSmooth(answers) ==> r.changed || !r.failed)
  {
    var first := Visited(Start(s, objs), |objs|, answers, true);
    QuietPass(Start(s, objs), s, objs, |objs|, answers, true);
    if Quiet(first, s, objs, |objs|, true) {
      QuietPass(first, s, objs, |objs|, answers, false);
    } else if first.failed {
      FailedPassStops(first, |objs|, answers, false);
    } else {
      ChangedStays(first, |objs|, answers, false);
    }
  }

  lemma {:induction false} ChangedStays(p: Pass, n: nat, answers: seq<Answer>, preReqsOnly: bool)
    requires n <= |p.objs| == |answers| && p.changed
    ensures Visited(p, n, answers, preReqsOnly).changed
  {
    if n > 0 {
      ChangedStays(p, n - 1, answers, preReqsOnly);
    }
  }

  /** A reconcile without error asks to be run again exactly when a read does not find some object with its key:
      because it is not there, has another key, or vanishes before it is read. */
  lemma RequeueIsExact(objects: Objects, objs: seq<ObjValue>, answers: seq<Answer>)
    requires |objs| == |answers| && AllFresh(objs) && Separate(objects, objs)
    requires !Deployed(objects, objs, answers).failed
    ensures Deployed(objects, objs, answers).changed <==> !AllSeenKeyed(objects, objs)
    ensures !Deployed(objects, objs, answers).changed ==> Silent(objects, objs, answers)
  {
    SilentWhereSeen(objects, objs, answers);
  }

  ghost predicate AllSeen(s: Objects, objs: seq<ObjValue>) {
    forall i :: 0 <= i < |objs| ==> s.Seen(objs[i].ident).Some?
  }

  lemma SeenAndCarried(s: Objects, objs: seq<ObjValue>, key: string)
    requires AllKeyed(objs, key) && AllCarry(s, objs, key)
    ensures AllSeen(s, objs) <==> AllSeenKeyed(s, objs)
  {
    assert forall i :: 0 <= i < |objs| ==> (s.Seen(objs[i].ident).Some? <==> SeenKeyed(s, objs[i]));
  }

  function SmoothAnswer(): Answer {
    Answer(false, false, false, 0, CoreController.POLLS, false, "1", false)
  }

  /** After a reconcile without error, from any start and whatever failed on its way, an immediate second one writes
      nothing however the server answers, if and only if no deletion still under way lets an object vanish first. */
  lemma SecondReconcileIsSilentIff(objects: Objects, objs: seq<ObjValue>, key: string, first: seq<Answer>)
    requires |objs| == |first| && AllFresh(objs) && AllKeyed(objs, key) && AllValid(first) && Separate(objects, objs)
    requires !Deployed(objects, objs, first).failed
    ensures
      var after := Deployed(objects, objs, first).objects;
      (forall second: seq<Answer> :: |second| == |objs| ==> Silent(after, objs, second)) <==> AllSeen(after, objs)
  {
    var after := Deployed(objects, objs, first).objects;
    AllCarryAfterSuccess(objects, objs, key, first);
    SeenAndCarried(after, objs, key);
    forall second: seq<Answer> | |second| == |objs| ensures AllSeen(after, objs) ==> Silent(after, objs, second) {
      SilentWhereSeen(after, objs, second);
    }
    if !AllSeen(after, objs) {
      var second := seq(|objs|, _ => SmoothAnswer());
      SilentWhereSeen(after, objs, second);
      assert |second| == |objs| && !Silent(after, objs, second);
    }
  }

  /** With nothing being deleted at the start there is nothing to vanish, and the cluster stays as it is. */
  lemma SecondReconcileIsSilent(objects: Objects, objs: seq<ObjValue>, key: string, first: seq<Answer>,
      second: seq<Answer>)
    requires objects.leaving == map[] && |objs| == |first| == |second|
    requires AllFresh(objs) && AllKeyed(objs, key) && AllValid(first)
    requires !Deployed(objects, objs, first).failed
    ensures
      var after := Deployed(objects, objs, first).objects;
      Deployed(after, objs, second).objects == after && !Deployed(after, objs, second).changed
  {
    var after := Deployed(objects, objs, first).objects;
    AllCarryAfterSuccess(objects, objs, key, first);
    assert forall i :: 0 <= i < |objs| ==> Carries(after, objs[i].ident, key);
    SecondReconcileIsSilentIff(objects, objs, key, first);
    assert Silent(after, objs, second);
  }

  // ---------------------------------------------------------------------------------------------
  // What comes first, and how long is waited

  /** No object but a Secret or a ServiceAccount is handled before all of these are. */
  lemma SecretsAndAccountsFirst(objects: Objects, objs: seq<ObjValue>, answers: seq<Answer>, a: nat, b: nat)
    requires |objs| == |answers| && AllFresh(objs) && AllValid(answers)
    requires a < b < |Deployed(objects, objs, answers).handled|
    ensures
      var handled := Deployed(objects, objs, answers).handled;
      && handled[a] < |objs| && handled[b] < |objs|
      && (objs[handled[b]].ident.kind == Secret || objs[handled[b]].ident.kind == ServiceAccount ==>
            objs[handled[a]].ident.kind == Secret || objs[handled[a]].ident.kind == ServiceAccount)
  {
    HandledOnce(objects, objs, answers);
    var first, second := Indices(objs, |objs|, true), Indices(objs, |objs|, false);
    var handled := Deployed(objects, objs, answers).handled;
    assert handled[a] == (first + second)[a] && handled[b] == (first + second)[b];
    if a < |first| {
      assert first[a] in first;
    } else {
      assert second[a - |first|] in second && second[b - |first|] in second;
    }
    assert b < |first| ==> first[b] in first;
    assert b >= |first| ==> second[b - |first|] in second;
  }

  /** An object whose update fails is replaced exactly if the deletion is accepted, seen within 300 reads, none of
      which fails before, and the creation is accepted. */
  lemma ReplacedIff(s: Objects, o: ObjValue, a: Answer)
    requires s.Seen(o.ident).Some? && o.ident !in s.leaving && s.stored[o.ident].crdKey != o.crdKey
    requires !a.getFails && a.updateFails
    ensures
      Placed(s, o, a).2 != Failed <==>
      !a.deleteFails && a.lag < 300 && a.lag < a.pollReads && !a.createFails
  {
    var refused := s.Refused();
    if a.deleteFails {
      PolledInPlace(refused.Refused(), o.ident, PollsMade(CoreController.POLLS, a.pollReads));
    } else {
      PolledDeletion(refused.Deleted(o.ident, a.lag), o.ident, PollsMade(CoreController.POLLS, a.pollReads));
    }
  }
}
