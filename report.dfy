/** The report renderer `sortMap` (main.go:87-106): the keys of a counter map,
    grouped by count, most frequent first, one `key : count` line each. Keys
    with equal counts come out in Go's map iteration order, which is
    unspecified; the model leaves that order open as well. */
module Report {
  import opened Text

  const Margin: string := "\t\n\t\t\t\t\t"
  const Tab: string := "\t\t\t\t\t"
  const Colon: string := " : "

  /** One line of the report, `fmt.Sprintf("%s%s%s : %d", margin, tab, s, k)`. */
  function Entry(key: string, count: int): (r: string)
    ensures |Margin + Tab + key + Colon| <= |r|
    ensures r[..|Margin + Tab|] == Margin + Tab
    ensures r[|Margin + Tab|..|Margin + Tab + key|] == key
    ensures ParseInt(r[|Margin + Tab + key + Colon|..]) == count
  {
    var prefix := Margin + Tab + key + Colon;
    var r := prefix + IntToString(count);
    assert r[..|Margin + Tab|] == Margin + Tab;
    assert r[|Margin + Tab|..|Margin + Tab + key|] == key;
    ReadBackInt(prefix, count, "");
    assert prefix + IntToString(count) + "" == r;
    r
  }

  /** The report for `keys`: the leading margin, then one line per key, in
      that order, each with its count in `m`. */
  function Render(m: map<string, int>, keys: seq<string>): string
    requires InMap(m, keys)
  {
    if keys == [] then Margin + Tab
    else Render(m, keys[..|keys| - 1]) + Entry(keys[|keys| - 1], m[keys[|keys| - 1]])
  }

  predicate Distinct<T(==)>(s: seq<T>)
  {
    forall i, j :: 0 <= i < j < |s| ==> s[i] != s[j]
  }

  predicate StrictlyDecreasing(s: seq<int>)
  {
    forall i, j :: 0 <= i < j < |s| ==> s[i] > s[j]
  }

  /** `keys` lists every key of `m` exactly once, by non-increasing count. */
  ghost predicate IsRanking(m: map<string, int>, keys: seq<string>)
  {
    && Ranked(m, keys)
    && (forall k :: k in m ==> k in keys)
  }

  /** `msg` is a report on `m`: the leading margin, then one line per key in
      some ranking of `m`. */
  ghost predicate IsReport(m: map<string, int>, msg: string)
  {
    exists keys :: IsRanking(m, keys) && msg == Render(m, keys)
  }

  /** A ranking has as many lines as the map has keys. */
  lemma RankingLength(m: map<string, int>, keys: seq<string>)
    requires IsRanking(m, keys)
    ensures |keys| == |m|
  {
    var ks := set i | 0 <= i < |keys| :: keys[i];
    assert ks == m.Keys;
    DistinctCard(keys);
  }

  lemma {:induction false} DistinctCard<T>(s: seq<T>)
    requires Distinct(s)
    ensures |set i | 0 <= i < |s| :: s[i]| == |s|
  {
    if s != [] {
      var n := |s| - 1;
      DistinctCard(s[..n]);
      var front := set i | 0 <= i < n :: s[..n][i];
      assert (set i | 0 <= i < |s| :: s[i]) == front + {s[n]};
      assert s[n] !in front;
    }
  }

  /** The first line of a non-empty report carries the largest count. */
  lemma RankingHead(m: map<string, int>, keys: seq<string>, k: string)
    requires IsRanking(m, keys) && k in m
    ensures |keys| > 0 && m[keys[0]] >= m[k]
  {
    var i :| 0 <= i < |keys| && keys[i] == k;
  }

  /** Inserts a new value into a strictly decreasing sequence. */
  function Insert(x: int, s: seq<int>): (r: seq<int>)
    requires StrictlyDecreasing(s) && x !in s
    ensures StrictlyDecreasing(r)
    ensures forall y :: y in r <==> y == x || y in s
    ensures |r| == |s| + 1
  {
    if s == [] || x > s[0] then [x] + s
    else
      var rest := Insert(x, s[1..]);
      assert forall j :: 0 <= j < |rest| ==> s[0] > rest[j] by {
        forall j | 0 <= j < |rest|
          ensures s[0] > rest[j]
        {
          assert rest[j] in rest;
        }
      }
      [s[0]] + rest
  }

  /** `sort.Sort(sort.Reverse(sort.IntSlice(a)))` on distinct values. */
  function SortDescending(a: seq<int>): (r: seq<int>)
    requires Distinct(a)
    ensures StrictlyDecreasing(r)
    ensures forall y :: y in r <==> y in a
    ensures |r| == |a|
  {
    if a == [] then []
    else
      var n := |a| - 1;
      assert forall j :: 0 <= j < n ==> a[..n][j] == a[j];
      Insert(a[n], SortDescending(a[..n]))
  }

  /** `n` groups the keys in `seen` by their count in `m`: each group is
      non-empty and duplicate-free, holds only keys of that count, and every
      seen key is in its group. */
  ghost predicate GroupsOf(m: map<string, int>, n: map<int, seq<string>>, seen: set<string>)
  {
    && seen <= m.Keys
    && (forall v :: v in n ==> n[v] != [] && Distinct(n[v]))
    && (forall v, i :: v in n && 0 <= i < |n[v]| ==> n[v][i] in seen && m[n[v][i]] == v)
    && (forall k :: k in seen ==> m[k] in n && k in n[m[k]])
  }

  /** The first loop of `sortMap`: `for k, v := range m { n[v] = append(n[v], k) }`. */
  method GroupByCount(m: map<string, int>) returns (n: map<int, seq<string>>)
    ensures GroupsOf(m, n, m.Keys)
  {
    n := map[];
    var unvisited := m.Keys;
    while unvisited != {}
      invariant unvisited <= m.Keys
      invariant GroupsOf(m, n, m.Keys - unvisited)
      decreases unvisited
    {
      var k :| k in unvisited;
      var v := m[k];
      n := n[v := (if v in n then n[v] else []) + [k]];
      unvisited := unvisited - {k};
    }
  }

  /** A non-empty set has a member. The choice `v :| v in counts` below needs
      this existence spelled out: for a set of integers the verifier does not
      derive it from `counts != {}` on its own. */
  lemma HasMember(s: set<int>)
    requires s != {}
    ensures exists v :: v in s
  {
    if forall v :: v !in s {
      assert false;
    }
  }

  /** The second loop of `sortMap`: `for k := range n { a = append(a, k) }`. */
  method CountsOf(n: map<int, seq<string>>) returns (a: seq<int>)
    ensures Distinct(a)
    ensures forall v :: v in a <==> v in n
  {
    a := [];
    var counts := n.Keys;
    while counts != {}
      invariant counts <= n.Keys
      invariant Distinct(a)
      invariant forall v :: v in a <==> v in n && v !in counts
      decreases counts
    {
      HasMember(counts);
      var v :| v in counts;
      a := a + [v];
      counts := counts - {v};
    }
  }

  /** `sortMap`. */
  method SortMap(m: map<string, int>) returns (msg: string)
    ensures IsReport(m, msg)
  {
    msg := Margin + Tab;
    var n := GroupByCount(m);
    var a := CountsOf(n);
    ghost var unsorted := a;
    a := SortDescending(a);
    assert forall y :: y in a <==> y in n;

    ghost var keys: seq<string> := [];
    var i := 0;
    while i < |a|
      invariant 0 <= i <= |a|
      invariant Ranked(m, keys)
      invariant msg == Render(m, keys)
      invariant ListedUpTo(m, keys, a, i)
    {
      var v := a[i];
      var group := n[v];
      ghost var before := keys;
      GroupIsFresh(m, n, a, i, keys);
      msg, keys := EmitGroup(m, v, group, msg, keys);
      GroupListed(m, n, a, i, before, keys);
      i := i + 1;
    }
    AllListed(m, n, a, keys);
  }

  /** The keys listed after the first `i` groups are exactly the keys whose
      count is among the first `i` counts, all larger than the next count. */
  ghost predicate ListedUpTo(m: map<string, int>, keys: seq<string>, a: seq<int>, i: nat)
    requires i <= |a|
    requires InMap(m, keys)
  {
    && (forall k :: k in keys <==> k in m && m[k] in a[..i])
    && (i < |a| ==> AllAtLeast(m, keys, a[i] + 1))
  }

  /** The group of the next count holds keys of that count, none listed yet. */
  lemma GroupIsFresh(m: map<string, int>, n: map<int, seq<string>>, a: seq<int>, i: nat, keys: seq<string>)
    requires GroupsOf(m, n, m.Keys) && StrictlyDecreasing(a) && (forall y :: y in a <==> y in n)
    requires i < |a| && Ranked(m, keys) && ListedUpTo(m, keys, a, i)
    ensures AllAtLeast(m, keys, a[i]) && Distinct(n[a[i]])
    ensures forall p :: 0 <= p < |n[a[i]]| ==> n[a[i]][p] in m && m[n[a[i]][p]] == a[i]
    ensures forall p, q :: 0 <= p < |keys| && 0 <= q < |n[a[i]]| ==> keys[p] != n[a[i]][q]
  {
    var v := a[i];
    assert v !in a[..i];
    forall p, q | 0 <= p < |keys| && 0 <= q < |n[v]|
      ensures keys[p] != n[v][q]
    {
      assert keys[p] in keys;
    }
  }

  /** After the group of count `a[i]`, the first `i + 1` counts are listed. */
  lemma GroupListed(m: map<string, int>, n: map<int, seq<string>>, a: seq<int>, i: nat,
                    before: seq<string>, keys: seq<string>)
    requires GroupsOf(m, n, m.Keys) && StrictlyDecreasing(a) && (forall y :: y in a <==> y in n)
    requires i < |a| && Ranked(m, before) && ListedUpTo(m, before, a, i)
    requires keys == before + n[a[i]] && Ranked(m, keys) && AllAtLeast(m, keys, a[i])
    ensures ListedUpTo(m, keys, a, i + 1)
  {
    var v := a[i];
    assert a[..i + 1] == a[..i] + [v];
    forall k
      ensures k in keys <==> k in m && m[k] in a[..i + 1]
    {
      if k in m && m[k] == v {
        assert k in n[v];
      }
    }
    if i + 1 < |a| {
      assert a[i] > a[i + 1];
    }
  }

  /** Once every group is emitted, the listed keys form a ranking of `m`. */
  lemma AllListed(m: map<string, int>, n: map<int, seq<string>>, a: seq<int>, keys: seq<string>)
    requires GroupsOf(m, n, m.Keys) && (forall y :: y in a <==> y in n)
    requires Ranked(m, keys) && ListedUpTo(m, keys, a, |a|)
    ensures IsRanking(m, keys)
  {
    assert a[..|a|] == a;
    forall k | k in m
      ensures k in keys
    {
      var c := m[k];
      assert c in n;
      assert c in a[..|a|];
    }
  }

  /** The inner loop of `sortMap`: one line per key of the group of count `v`. */
  method EmitGroup(m: map<string, int>, v: int, group: seq<string>, msg: string, ghost keys: seq<string>)
    returns (msg': string, ghost keys': seq<string>)
    requires Ranked(m, keys) && AllAtLeast(m, keys, v)
    requires msg == Render(m, keys)
    requires Distinct(group)
    requires forall p :: 0 <= p < |group| ==> group[p] in m && m[group[p]] == v
    requires forall p, q :: 0 <= p < |keys| && 0 <= q < |group| ==> keys[p] != group[q]
    ensures keys' == keys + group
    ensures Ranked(m, keys') && AllAtLeast(m, keys', v)
    ensures msg' == Render(m, keys')
  {
    msg' := msg;
    var j := 0;
    assert keys + group[..0] == keys;
    while j < |group|
      invariant 0 <= j <= |group|
      invariant InMap(m, keys + group[..j])
      invariant msg' == Render(m, keys + group[..j])
    {
      var s := group[j];
      RenderStep(m, keys, group, j);
      msg' := msg' + Entry(s, v);
      j := j + 1;
    }
    assert group[..j] == group;
    keys' := keys + group;
    RankedGroup(m, keys, group, v);
  }

  /** Every listed key is a key of `m`. */
  predicate InMap(m: map<string, int>, keys: seq<string>)
  {
    forall p :: 0 <= p < |keys| ==> keys[p] in m
  }

  /** One more line of the group extends the rendered report by its entry. */
  lemma RenderStep(m: map<string, int>, keys: seq<string>, group: seq<string>, j: nat)
    requires j < |group| && InMap(m, keys + group[..j])
    requires forall p :: 0 <= p < |group| ==> group[p] in m
    ensures InMap(m, keys + group[..j + 1])
    ensures Render(m, keys + group[..j + 1]) == Render(m, keys + group[..j]) + Entry(group[j], m[group[j]])
  {
    var ks := keys + group[..j + 1];
    assert ks == (keys + group[..j]) + [group[j]];
    assert ks[..|ks| - 1] == keys + group[..j];
  }

  /** Appending a fresh, duplicate-free group of keys of count `v` to keys of
      count at least `v` keeps the list ranked. */
  lemma RankedGroup(m: map<string, int>, keys: seq<string>, group: seq<string>, v: int)
    requires Ranked(m, keys) && AllAtLeast(m, keys, v) && Distinct(group)
    requires forall p :: 0 <= p < |group| ==> group[p] in m && m[group[p]] == v
    requires forall p, q :: 0 <= p < |keys| && 0 <= q < |group| ==> keys[p] != group[q]
    ensures Ranked(m, keys + group) && AllAtLeast(m, keys + group, v)
  {
    var ks := keys + group;
    forall p | 0 <= p < |ks|
      ensures ks[p] in m && m[ks[p]] >= v
      ensures p >= |keys| ==> m[ks[p]] == v
    {
      if p >= |keys| { assert ks[p] == group[p - |keys|]; }
    }
    forall p, q | 0 <= p < q < |ks|
      ensures ks[p] != ks[q] && m[ks[p]] >= m[ks[q]]
    {
      if q >= |keys| {
        assert ks[q] == group[q - |keys|];
        if p >= |keys| { assert ks[p] == group[p - |keys|]; }
      }
    }
  }

  /** The keys listed so far are keys of `m`, none twice, by non-increasing count. */
  ghost predicate Ranked(m: map<string, int>, keys: seq<string>)
  {
    && InMap(m, keys)
    && Distinct(keys)
    && (forall p, q :: 0 <= p < q < |keys| ==> m[keys[p]] >= m[keys[q]])
  }

  ghost predicate AllAtLeast(m: map<string, int>, keys: seq<string>, floor: int)
    requires InMap(m, keys)
  {
    forall p :: 0 <= p < |keys| ==> m[keys[p]] >= floor
  }
}
