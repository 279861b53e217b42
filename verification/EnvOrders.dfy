/** When the order in which a merge meets the desired environment shows in the result: exactly when it
    appends two variables or more. */
module EnvOrders {
  import opened KubeTypes
  import opened EnvVars

  /** The desired variables that the list lacks. */
  ghost function Absent(env: seq<EnvVar>, desired: Desired): set<string> {
    set n | n in desired && !Names(env, n)
  }

  function NamesOf(env: seq<EnvVar>): seq<string> {
    seq(|env|, i requires 0 <= i < |env| => env[i].name)
  }

  lemma {:induction false} SingleMissing(env: seq<EnvVar>, desired: Desired, order: seq<string>, n: string)
    requires Absent(env, desired) == {n}
    requires forall i, j :: 0 <= i < j < |order| ==> order[i] != order[j]
    ensures Missing(env, desired, order) == if n in order then [desired[n]] else []
  {
    if order != [] {
      var k := |order| - 1;
      SingleMissing(env, desired, order[..k], n);
      assert order[k] in desired && !Names(env, order[k]) <==> order[k] in Absent(env, desired);
      assert order == order[..k] + [order[k]];
    }
  }

  lemma AtMostOne(s: set<string>, n: string)
    requires |s| <= 1 && n in s
    ensures s == {n}
  {
    assert |s - {n}| == |s| - 1;
  }

  /** With at most one variable to append every order gives the same list. */
  lemma OrderIsHidden(env: seq<EnvVar>, desired: Desired, order: seq<string>, order': seq<string>)
    requires |Absent(env, desired)| <= 1 && IsOrder(order, desired) && IsOrder(order', desired)
    ensures Merged(env, desired, order) == Merged(env, desired, order')
  {
    if n :| n in Absent(env, desired) {
      AtMostOne(Absent(env, desired), n);
      SingleMissing(env, desired, order, n);
      SingleMissing(env, desired, order', n);
    } else {
      assert forall n :: n in desired ==> Names(env, n) || n in Absent(env, desired);
      NothingMissing(env, desired, order);
      NothingMissing(env, desired, order');
    }
  }

  lemma {:induction false} FirstIsMissing(env: seq<EnvVar>, desired: Desired, order: seq<string>)
    requires order != [] && order[0] in Absent(env, desired)
    ensures Missing(env, desired, order) != [] && Missing(env, desired, order)[0] == desired[order[0]]
  {
    if |order| > 1 {
      FirstIsMissing(env, desired, order[..|order| - 1]);
    } else {
      assert order[..0] == [];
    }
  }

  /** The order with one name moved to the front. */
  function Fronted(order: seq<string>, k: nat): seq<string>
    requires k < |order|
  {
    [order[k]] + order[..k] + order[k + 1..]
  }

  lemma FrontedIsOrder(order: seq<string>, desired: Desired, k: nat)
    requires IsOrder(order, desired) && k < |order|
    ensures IsOrder(Fronted(order, k), desired)
  {
    var o := Fronted(order, k);
    assert forall i :: 0 < i <= k ==> o[i] == order[i - 1];
    assert forall i :: k < i < |order| ==> o[i] == order[i];
    forall n ensures n in o <==> n in desired {
      assert order == order[..k] + [order[k]] + order[k + 1..];
      assert n in o <==> n in order;
    }
  }

  /** With two variables to append or more, any order has another that gives other names. */
  lemma OrderShows(env: seq<EnvVar>, desired: Desired, order: seq<string>) returns (order': seq<string>)
    requires WellNamed(desired) && |Absent(env, desired)| >= 2 && IsOrder(order, desired)
    ensures IsOrder(order', desired)
    ensures NamesOf(Merged(env, desired, order)) != NamesOf(Merged(env, desired, order'))
  {
    var missing := Missing(env, desired, order);
    var m := if missing == [] then "" else missing[0].name;
    var n := AnotherThan(Absent(env, desired), m);
    assert n in order;
    var k :| 0 <= k < |order| && order[k] == n;
    MissingNames(env, desired, order, n);
    assert missing != [];
    order' := Fronted(order, k);
    FrontedIsOrder(order, desired, k);
    FirstIsMissing(env, desired, order');
    assert NamesOf(Merged(env, desired, order))[|env|] == m;
    assert NamesOf(Merged(env, desired, order'))[|env|] == n;
  }

  lemma AnotherThan(s: set<string>, m: string) returns (n: string)
    requires |s| >= 2
    ensures n in s && n != m
  {
    assert |s - {m}| >= |s| - 1;
    n :| n in s - {m};
  }

  // ---------------------------------------------------------------------------------------------
  // A digest of names that misses nothing

  /** Each character is marked, and so is the end of a name. */
  function Marked(name: string): string {
    if name == "" then "." else "*" + [name[0]] + Marked(name[1..])
  }

  function Digest(names: seq<string>): string {
    if names == [] then "#" else Marked(names[0]) + Digest(names[1..])
  }

  lemma {:induction false} MarkedInjective(a: string, b: string, x: string, y: string)
    requires Marked(a) + x == Marked(b) + y
    ensures a == b && x == y
  {
    var s, t := Marked(a) + x, Marked(b) + y;
    assert s[0] == t[0];
    if a == "" {
      assert s[1..] == x && t[1..] == y;
    } else {
      assert s[1] == a[0] && t[1] == b[0];
      assert s[2..] == Marked(a[1..]) + x && t[2..] == Marked(b[1..]) + y;
      MarkedInjective(a[1..], b[1..], x, y);
      assert a == [a[0]] + a[1..] && b == [b[0]] + b[1..];
    }
  }

  lemma {:induction false} DigestInjective(a: seq<string>, b: seq<string>)
    requires Digest(a) == Digest(b)
    ensures a == b
  {
    assert Digest(a)[0] == Digest(b)[0];
    if a != [] && b != [] {
      MarkedInjective(a[0], b[0], Digest(a[1..]), Digest(b[1..]));
      DigestInjective(a[1..], b[1..]);
      assert a == [a[0]] + a[1..] && b == [b[0]] + b[1..];
    }
  }
}
