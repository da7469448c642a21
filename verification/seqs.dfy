/**
 * Sequence operations behind the manifest's grouping: `Array.prototype.filter`
 * and grouping by a string key into a JavaScript `Map`, whose keys keep their
 * insertion (first-seen) order and whose lists keep input order.
 */
module Seqs {
  import opened Wrappers

  /** `xs.filter(p)`. */
  function Filter<T(!new)>(p: T -> bool, xs: seq<T>): (r: seq<T>)
    ensures |r| <= |xs|
    ensures forall x :: x in r <==> x in xs && p(x)
  {
    if xs == [] then []
    else Filter(p, xs[..|xs| - 1]) + (if p(xs[|xs| - 1]) then [xs[|xs| - 1]] else [])
  }

  /** Filtering one more element appends it exactly when it passes. */
  lemma FilterSnoc<T(!new)>(p: T -> bool, xs: seq<T>, x: T)
    ensures Filter(p, xs + [x]) == Filter(p, xs) + (if p(x) then [x] else [])
  {
    assert (xs + [x])[..|xs|] == xs;
  }

  /** Filtering keeps every element that passes, each as many times as it occurs. */
  lemma {:induction false} FilterMultiset<T(!new)>(p: T -> bool, xs: seq<T>, x: T)
    requires p(x)
    ensures multiset(Filter(p, xs))[x] == multiset(xs)[x]
  {
    if xs != [] {
      FilterMultiset(p, xs[..|xs| - 1], x);
      assert xs == xs[..|xs| - 1] + [xs[|xs| - 1]];
    }
  }

  predicate Distinct<T(==)>(s: seq<T>) {
    forall i, j :: 0 <= i < j < |s| ==> s[i] != s[j]
  }

  /** The distinct keys of `xs` in first-seen order: the key order of the Map the source fills. */
  function KeysOf<T(!new)>(xs: seq<T>, key: T -> string): (r: seq<string>)
    ensures forall k :: k in r <==> exists x :: x in xs && key(x) == k
  {
    if xs == [] then []
    else
      var ks := KeysOf(xs[..|xs| - 1], key);
      var last := xs[|xs| - 1];
      assert forall x :: x in xs <==> x in xs[..|xs| - 1] || x == last;
      if key(last) in ks then ks else ks + [key(last)]
  }

  /** Each key is listed once. */
  lemma {:induction false} KeysDistinct<T(!new)>(xs: seq<T>, key: T -> string)
    ensures Distinct(KeysOf(xs, key))
  {
    if xs != [] {
      KeysDistinct(xs[..|xs| - 1], key);
    }
  }

  /** The elements of `xs` whose key is `k`, in input order: the Map entry for `k`. */
  function GroupOf<T(!new)>(xs: seq<T>, key: T -> string, k: string): (r: seq<T>)
    ensures forall x :: x in r <==> x in xs && key(x) == k
    ensures forall i :: 0 <= i < |r| ==> key(r[i]) == k
  {
    if xs == [] then []
    else
      var last := xs[|xs| - 1];
      assert forall x :: x in xs <==> x in xs[..|xs| - 1] || x == last;
      GroupOf(xs[..|xs| - 1], key, k) + (if key(last) == k then [last] else [])
  }

  /** A key's group is `xs` filtered by that key, so it keeps the input order. */
  lemma {:induction false} GroupOfIsFilter<T(!new)>(xs: seq<T>, key: T -> string, k: string)
    ensures GroupOf(xs, key, k) == Filter(x => key(x) == k, xs)
  {
    if xs != [] {
      GroupOfIsFilter(xs[..|xs| - 1], key, k);
    }
  }

  /** A key no element has has an empty group. */
  lemma {:induction false} GroupOfAbsent<T(!new)>(xs: seq<T>, key: T -> string, k: string)
    requires forall x :: x in xs ==> key(x) != k
    ensures GroupOf(xs, key, k) == []
  {
    if xs != [] {
      assert xs[|xs| - 1] in xs;
      GroupOfAbsent(xs[..|xs| - 1], key, k);
    }
  }

  /** Every key present has a non-empty group. */
  lemma GroupNonEmpty<T(!new)>(xs: seq<T>, key: T -> string, k: string)
    requires k in KeysOf(xs, key)
    ensures |GroupOf(xs, key, k)| > 0
  {
    var x :| x in xs && key(x) == k;
    assert x in GroupOf(xs, key, k);
  }

  /** The groups of `xs`, one per key, in first-seen key order. */
  function Groups<T(!new)>(xs: seq<T>, key: T -> string): (r: seq<seq<T>>)
    ensures |r| == |KeysOf(xs, key)|
  {
    var ks := KeysOf(xs, key);
    seq(|ks|, i requires 0 <= i < |ks| => GroupOf(xs, key, ks[i]))
  }

  function Concat<T(!new)>(xss: seq<seq<T>>): seq<T> {
    if xss == [] then [] else Concat(xss[..|xss| - 1]) + xss[|xss| - 1]
  }

  /** Appending to one group adds exactly those elements to the concatenation. */
  lemma {:induction false} ConcatUpdate<T(!new)>(g: seq<seq<T>>, p: nat, ys: seq<T>)
    requires p < |g|
    ensures multiset(Concat(g[p := g[p] + ys])) == multiset(Concat(g)) + multiset(ys)
  {
    var n := |g| - 1;
    var g' := g[p := g[p] + ys];
    if p == n {
      assert g'[..n] == g[..n];
    } else {
      assert g'[..n] == g[..n][p := g[p] + ys];
      ConcatUpdate(g[..n], p, ys);
    }
  }

  /** The Map entry for `k` after one more element. */
  lemma GroupOfSnoc<T(!new)>(init: seq<T>, x: T, key: T -> string, k: string)
    ensures GroupOf(init + [x], key, k) == GroupOf(init, key, k) + (if key(x) == k then [x] else [])
  {
    assert (init + [x])[..|init|] == init;
  }

  /** An element whose key was already seen joins that key's group. */
  lemma GroupsSnocSeen<T(!new)>(init: seq<T>, x: T, key: T -> string) returns (p: nat)
    requires key(x) in KeysOf(init, key)
    ensures p < |Groups(init, key)|
    ensures Groups(init + [x], key) == Groups(init, key)[p := Groups(init, key)[p] + [x]]
  {
    var ks, g := KeysOf(init, key), Groups(init, key);
    assert (init + [x])[..|init|] == init;
    KeysDistinct(init, key);
    p :| 0 <= p < |ks| && ks[p] == key(x);
    var g' := Groups(init + [x], key);
    assert KeysOf(init + [x], key) == ks;
    forall i | 0 <= i < |ks| ensures g'[i] == g[p := g[p] + [x]][i] {
      GroupOfSnoc(init, x, key, ks[i]);
    }
  }

  /** An element with a new key opens a new group at the end. */
  lemma GroupsSnocNew<T(!new)>(init: seq<T>, x: T, key: T -> string)
    requires key(x) !in KeysOf(init, key)
    ensures Groups(init + [x], key) == Groups(init, key) + [[x]]
  {
    var g, g' := Groups(init, key), Groups(init + [x], key);
    GroupsSnocNewAt(init, x, key, 0);
    forall i | 0 <= i < |g'| ensures g'[i] == (g + [[x]])[i] {
      GroupsSnocNewAt(init, x, key, i);
    }
  }

  /** One position of `GroupsSnocNew`: the old groups stay, and the last is `[x]`. */
  lemma GroupsSnocNewAt<T(!new)>(init: seq<T>, x: T, key: T -> string, i: nat)
    requires key(x) !in KeysOf(init, key) && i <= |KeysOf(init, key)|
    ensures |Groups(init + [x], key)| == |Groups(init, key)| + 1
    ensures Groups(init + [x], key)[i] == (Groups(init, key) + [[x]])[i]
  {
    var ks := KeysOf(init, key);
    assert (init + [x])[..|init|] == init;
    assert KeysOf(init + [x], key) == ks + [key(x)];
    if i < |ks| {
      GroupOfSnoc(init, x, key, ks[i]);
    } else {
      assert forall y :: y in init ==> key(y) != key(x);
      GroupOfAbsent(init, key, key(x));
      GroupOfSnoc(init, x, key, key(x));
    }
  }

  /** Every element of `xs` is in the group of its key. */
  lemma GroupsCover<T(!new)>(xs: seq<T>, key: T -> string, x: T) returns (j: nat)
    requires x in xs
    ensures j < |Groups(xs, key)| && x in Groups(xs, key)[j]
  {
    var ks := KeysOf(xs, key);
    assert key(x) in ks;
    var p :| 0 <= p < |ks| && ks[p] == key(x);
    j := p;
  }

  /**
   * Grouping loses and invents nothing: the groups together hold exactly the
   * elements of `xs`, each as many times as it occurs.
   */
  lemma {:induction false} GroupsPartition<T(!new)>(xs: seq<T>, key: T -> string)
    ensures multiset(Concat(Groups(xs, key))) == multiset(xs)
  {
    if xs != [] {
      var init, x := xs[..|xs| - 1], xs[|xs| - 1];
      assert xs == init + [x];
      GroupsPartition(init, key);
      var g := Groups(init, key);
      if key(x) in KeysOf(init, key) {
        var p := GroupsSnocSeen(init, x, key);
        ConcatUpdate(g, p, [x]);
      } else {
        GroupsSnocNew(init, x, key);
        assert Concat(g + [[x]]) == Concat(g) + [x];
      }
    }
  }

  /**
   * A Map filled from `xs` the way the source fills one: `keys` are the Map's
   * keys in insertion order and `m[k]` is the list pushed for `k`.
   */
  ghost predicate GroupState<T(!new)>(xs: seq<T>, key: T -> string, keys: seq<string>, m: map<string, seq<T>>) {
    keys == KeysOf(xs, key) &&
    (forall k :: k in m <==> k in keys) &&
    (forall k :: k in m ==> m[k] == GroupOf(xs, key, k))
  }

  /**
   * One more element: a new key is set to an empty list and appended to the
   * keys, then the element is pushed onto its key's list.
   */
  lemma GroupStateSnoc<T(!new)>(xs: seq<T>, x: T, key: T -> string, keys: seq<string>, m: map<string, seq<T>>)
    requires GroupState(xs, key, keys, m)
    ensures var k := key(x); var started := if k in m then m else m[k := []];
      GroupState(xs + [x], key, if k in m then keys else keys + [k], started[k := started[k] + [x]])
  {
    var k := key(x);
    assert (xs + [x])[..|xs|] == xs;
    var started := if k in m then m else m[k := []];
    var m' := started[k := started[k] + [x]];
    forall j | j in m' ensures m'[j] == GroupOf(xs + [x], key, j) {
      GroupStateSnocAt(xs, x, key, keys, m, j);
    }
  }

  /** The list of one key after pushing `x`: see `GroupStateSnoc`. */
  lemma GroupStateSnocAt<T(!new)>(xs: seq<T>, x: T, key: T -> string, keys: seq<string>, m: map<string, seq<T>>, j: string)
    requires GroupState(xs, key, keys, m)
    requires j in m || j == key(x)
    ensures var k := key(x); var started := if k in m then m else m[k := []];
      started[k := started[k] + [x]][j] == GroupOf(xs + [x], key, j)
  {
    var k := key(x);
    GroupOfSnoc(xs, x, key, j);
    if j == k && k !in m {
      assert k !in KeysOf(xs, key);
      GroupOfAbsent(xs, key, k);
    }
  }

  /** Read in key order, the filled Map gives the groups. */
  lemma GroupStateGroups<T(!new)>(xs: seq<T>, key: T -> string, keys: seq<string>, m: map<string, seq<T>>)
    requires GroupState(xs, key, keys, m)
    ensures |keys| == |Groups(xs, key)|
    ensures forall j :: 0 <= j < |keys| ==> keys[j] in m && m[keys[j]] == Groups(xs, key)[j]
  {
  }

  /** Every group is non-empty and holds only elements of `xs`. */
  lemma GroupsNonEmpty<T(!new)>(xs: seq<T>, key: T -> string)
    ensures forall j :: 0 <= j < |Groups(xs, key)| ==> |Groups(xs, key)[j]| > 0
    ensures forall j, x :: 0 <= j < |Groups(xs, key)| && x in Groups(xs, key)[j] ==> x in xs
  {
    var ks := KeysOf(xs, key);
    forall j | 0 <= j < |ks| ensures |Groups(xs, key)[j]| > 0 {
      GroupNonEmpty(xs, key, ks[j]);
    }
  }

  /**
   * The values of the first `n` results in order, or the error of the first
   * of them that failed: what a loop that stops at the first throw collects.
   */
  function Collect<T, E>(rs: seq<Result<T, E>>, n: nat): (r: Result<seq<T>, E>)
    requires n <= |rs|
    ensures r.Ok? ==> |r.value| == n
  {
    if n == 0 then Ok([])
    else
      match Collect(rs, n - 1)
      case Err(e) => Err(e)
      case Ok(vs) =>
        match rs[n - 1]
        case Err(e) => Err(e)
        case Ok(v) => Ok(vs + [v])
  }

  /**
   * The collection succeeds exactly when every result does, and then holds
   * their values in order; otherwise its error is that of the first failure.
   */
  lemma {:induction false} CollectSpec<T, E>(rs: seq<Result<T, E>>, n: nat)
    requires n <= |rs|
    ensures Collect(rs, n).Ok? <==> forall i :: 0 <= i < n ==> rs[i].Ok?
    ensures Collect(rs, n).Ok? ==> forall i :: 0 <= i < n ==> rs[i] == Ok(Collect(rs, n).value[i])
    ensures Collect(rs, n).Err? ==>
      exists i :: 0 <= i < n && rs[i] == Err(Collect(rs, n).error) && forall j :: 0 <= j < i ==> rs[j].Ok?
  {
    if n > 0 {
      CollectSpec(rs, n - 1);
    }
  }

  /** The position of the first element that fails `ok`, if any. */
  function FirstFailing<T>(ok: T -> bool, xs: seq<T>): (r: Option<nat>)
    ensures r.None? <==> forall j :: 0 <= j < |xs| ==> ok(xs[j])
    ensures r.Some? ==> r.value < |xs| && !ok(xs[r.value]) && forall i :: 0 <= i < r.value ==> ok(xs[i])
  {
    if xs == [] then None
    else if !ok(xs[0]) then Some(0)
    else
      var rest := FirstFailing(ok, xs[1..]);
      assert forall i :: 1 <= i < |xs| ==> xs[i] == xs[1..][i - 1];
      if rest.None? then None else Some(rest.value + 1)
  }

  /** When result `k` is the first that fails, the collection fails with its error. */
  lemma {:induction false} CollectErrIsFirst<T, E>(rs: seq<Result<T, E>>, n: nat, k: nat)
    requires k < n <= |rs| && rs[k].Err? && forall j :: 0 <= j < k ==> rs[j].Ok?
    ensures Collect(rs, n) == Err(rs[k].error)
    decreases n
  {
    if k < n - 1 {
      CollectErrIsFirst(rs, n - 1, k);
    } else {
      CollectSpec(rs, k);
    }
  }

  /** One more result: its value is appended, or its error ends the collection. */
  lemma CollectNext<T, E>(rs: seq<Result<T, E>>, n: nat)
    requires n < |rs| && Collect(rs, n).Ok?
    ensures Collect(rs, n + 1) == if rs[n].Ok? then Ok(Collect(rs, n).value + [rs[n].value]) else Err(rs[n].error)
  {
  }

  /** Once the first `m` results hold an error, the results that follow do not change it. */
  lemma {:induction false} CollectErrExtends<T, E>(rs: seq<Result<T, E>>, m: nat, n: nat)
    requires m <= n <= |rs| && Collect(rs, m).Err?
    ensures Collect(rs, n) == Collect(rs, m)
    decreases n
  {
    if m < n {
      CollectErrExtends(rs, m, n - 1);
    }
  }

  /**
   * `xs.map(f)` where `f` may throw: every result in order, or the error of
   * the first element whose call throws.
   */
  function MapResult<A, B, E>(f: A -> Result<B, E>, xs: seq<A>): (r: Result<seq<B>, E>)
    ensures r.Ok? <==> forall i :: 0 <= i < |xs| ==> f(xs[i]).Ok?
    ensures r.Ok? ==> |r.value| == |xs| && forall i :: 0 <= i < |xs| ==> f(xs[i]) == Ok(r.value[i])
    ensures r.Err? ==> exists i :: 0 <= i < |xs| && f(xs[i]) == Err(r.error) && forall j :: 0 <= j < i ==> f(xs[j]).Ok?
  {
    if xs == [] then Ok([])
    else
      var init := xs[..|xs| - 1];
      assert forall i :: 0 <= i < |init| ==> init[i] == xs[i];
      match MapResult(f, init)
      case Err(e) => Err(e)
      case Ok(ys) =>
        match f(xs[|xs| - 1])
        case Err(e) => Err(e)
        case Ok(y) => Ok(ys + [y])
  }

}
