/** The reference grant index: per (from, to) pair of keys, an 8-bit count of how many grants
    list it. */
module GrantIndex {
  import opened Common
  import opened Names
  import opened Objects

  type int8 = x: int | -128 <= x < 128

  // Go's int8 arithmetic wraps around.
  function Wrap(x: int): int8 { (x + 128) % 256 - 128 }

  type Row = map<string, int8>
  type Index = map<string, Row>

  /******* Keys *******/

  function FromKey(f: GrantFrom): string {
    Slash(if f.group != "" then f.group else "-", Slash(f.kind, if f.ns != "" then f.ns else "-"))
  }

  function ToKey(t: GrantTo, ns: string): string {
    Slash(if t.group != "" then t.group else "-", Slash(t.kind, Slash(ns, GetOr(t.name, "*"))))
  }

  function FromKeys(from: seq<GrantFrom>): (ks: seq<string>)
    ensures |ks| == |from| && forall i :: 0 <= i < |from| ==> ks[i] == FromKey(from[i])
  {
    seq(|from|, i requires 0 <= i < |from| => FromKey(from[i]))
  }

  function ToKeys(to: seq<GrantTo>, ns: string): (ks: seq<string>)
    ensures |ks| == |to| && forall i :: 0 <= i < |to| ==> ks[i] == ToKey(to[i], ns)
  {
    seq(|to|, i requires 0 <= i < |to| => ToKey(to[i], ns))
  }

  lemma FromKeyInjective(f: GrantFrom, g: GrantFrom)
    requires CleanFrom(f) && CleanFrom(g) && FromKey(f) == FromKey(g)
    ensures f == g
  {
    var a, b := if f.group != "" then f.group else "-", if g.group != "" then g.group else "-";
    var x, y := if f.ns != "" then f.ns else "-", if g.ns != "" then g.ns else "-";
    SlashInjective(a, Slash(f.kind, x), b, Slash(g.kind, y));
    SlashInjective(f.kind, x, g.kind, y);
  }

  lemma ToKeyInjective(t: GrantTo, ns: string, u: GrantTo, ns2: string)
    requires CleanTo(t) && CleanTo(u) && CleanPart(ns) && CleanPart(ns2) && ToKey(t, ns) == ToKey(u, ns2)
    ensures t == u && ns == ns2
  {
    var a, b := if t.group != "" then t.group else "-", if u.group != "" then u.group else "-";
    var x, y := GetOr(t.name, "*"), GetOr(u.name, "*");
    SlashInjective(a, Slash(t.kind, Slash(ns, x)), b, Slash(u.kind, Slash(ns2, y)));
    SlashInjective(t.kind, Slash(ns, x), u.kind, Slash(ns2, y));
    SlashInjective(ns, x, ns2, y);
  }

  /******* What set, unset and exists do *******/

  function Value(row: Row, to: string): int8 { if to in row then row[to] else 0 }

  function Entry(idx: Index, from: string, to: string): int8 {
    if from in idx then Value(idx[from], to) else 0
  }

  predicate Exists(idx: Index, from: string, to: string) {
    from in idx && to in idx[from] && idx[from][to] > 0
  }

  function AddTos(row: Row, tos: seq<string>): Row
    decreases |tos|
  {
    if tos == [] then row else AddTos(row[tos[0] := Wrap(Value(row, tos[0]) as int + 1)], tos[1..])
  }

  function AddPairs(idx: Index, froms: seq<string>, tos: seq<string>): Index
    decreases |froms|
  {
    if froms == [] then idx
    else
      var row := if froms[0] in idx then idx[froms[0]] else map[];
      AddPairs(idx[froms[0] := AddTos(row, tos)], froms[1..], tos)
  }

  function DropTo(row: Row, to: string): Row {
    if to !in row then row
    else if Wrap(row[to] as int - 1) == 0 then row - {to}
    else row[to := Wrap(row[to] as int - 1)]
  }

  function DropTos(row: Row, tos: seq<string>): Row
    decreases |tos|
  {
    if tos == [] then row else DropTos(DropTo(row, tos[0]), tos[1..])
  }

  // A missing from-key ends the whole operation, whatever is left of the grant.
  function DropPairs(idx: Index, froms: seq<string>, tos: seq<string>): Index
    decreases |froms|
  {
    if froms == [] || froms[0] !in idx then idx
    else DropPairs(idx[froms[0] := DropTos(idx[froms[0]], tos)], froms[1..], tos)
  }

  function AddGrant(idx: Index, rg: ReferenceGrant): Index {
    AddPairs(idx, FromKeys(rg.from), ToKeys(rg.to, rg.ns))
  }

  function DropGrant(idx: Index, rg: ReferenceGrant): Index {
    DropPairs(idx, FromKeys(rg.from), ToKeys(rg.to, rg.ns))
  }

  class ReferenceGrantFromTo {
    var index: Index

    constructor ()
      ensures index == map[]
    {
      index := map[];
    }

    method Set(rg: ReferenceGrant)
      modifies this
      ensures index == AddGrant(old(index), rg)
    {
      var froms, tos := FromKeys(rg.from), ToKeys(rg.to, rg.ns);
      for i := 0 to |froms|
        invariant AddPairs(index, froms[i..], tos) == AddPairs(old(index), froms, tos)
      {
        var from := froms[i];
        assert froms[i..][1..] == froms[i + 1..];
        ghost var before := index;
        if from !in index {
          index := index[from := map[]];
        }
        SetRow(from, tos);
        assert index == before[from := AddTos(if from in before then before[from] else map[], tos)];
      }
    }

    // The loop over the to-entries of `set`.
    method SetRow(from: string, tos: seq<string>)
      requires from in index
      modifies this
      ensures index == old(index)[from := AddTos(old(index)[from], tos)]
    {
      for j := 0 to |tos|
        invariant from in index && index == old(index)[from := index[from]]
        invariant AddTos(index[from], tos[j..]) == AddTos(old(index)[from], tos)
      {
        var to := tos[j];
        assert tos[j..][1..] == tos[j + 1..];
        var row: Row := index[from][to := Wrap(Value(index[from], to) as int + 1)];
        index := index[from := row];
      }
    }

    method Unset(rg: ReferenceGrant)
      modifies this
      ensures index == DropGrant(old(index), rg)
    {
      var froms, tos := FromKeys(rg.from), ToKeys(rg.to, rg.ns);
      for i := 0 to |froms|
        invariant DropPairs(index, froms[i..], tos) == DropPairs(old(index), froms, tos)
      {
        var from := froms[i];
        assert froms[i..][1..] == froms[i + 1..];
        if from !in index {
          return;
        }
        UnsetRow(from, tos);
      }
    }

    // The loop over the to-entries of `unset`.
    method UnsetRow(from: string, tos: seq<string>)
      requires from in index
      modifies this
      ensures index == old(index)[from := DropTos(old(index)[from], tos)]
    {
      for j := 0 to |tos|
        invariant from in index && index == old(index)[from := index[from]]
        invariant DropTos(index[from], tos[j..]) == DropTos(old(index)[from], tos)
      {
        var to := tos[j];
        assert tos[j..][1..] == tos[j + 1..];
        ghost var before := index[from];
        if to in index[from] {
          var row: Row := index[from][to := Wrap(index[from][to] as int - 1)];
          index := index[from := row];
          if index[from][to] == 0 {
            assert row - {to} == before - {to};
            index := index[from := index[from] - {to}];
          }
        }
        assert index[from] == DropTo(before, to);
      }
    }

    method ExistsPair(from: string, to: string) returns (found: bool)
      ensures found == Exists(index, from, to)
    {
      if from !in index {
        return false;
      }
      return to in index[from] && index[from][to] > 0;
    }
  }

  /******* What they count *******/

  // How often these entries list the pair: each from-entry goes with each to-entry.
  ghost function Pairs(froms: seq<string>, tos: seq<string>, from: string, to: string): nat
    decreases |froms|
  {
    if froms == [] then 0
    else (if froms[0] == from then multiset(tos)[to] else 0) + Pairs(froms[1..], tos, from, to)
  }

  lemma {:induction false} PairsIsProduct(froms: seq<string>, tos: seq<string>, from: string, to: string)
    ensures Pairs(froms, tos, from, to) == multiset(froms)[from] * multiset(tos)[to]
    decreases |froms|
  {
    if froms != [] {
      PairsIsProduct(froms[1..], tos, from, to);
      CountHead(froms, from);
    }
  }

  lemma {:induction false} PairsPositive(froms: seq<string>, tos: seq<string>, from: string, to: string)
    ensures Pairs(froms, tos, from, to) > 0 <==> from in froms && to in tos
    decreases |froms|
  {
    if froms != [] {
      PairsPositive(froms[1..], tos, from, to);
      assert from in froms <==> from == froms[0] || from in froms[1..];
      assert to in tos <==> multiset(tos)[to] > 0;
    }
  }

  ghost function Occurrences(rg: ReferenceGrant, from: string, to: string): nat {
    Pairs(FromKeys(rg.from), ToKeys(rg.to, rg.ns), from, to)
  }

  type Grants = map<string, ReferenceGrant>

  // The number of times the stored grants list the pair.
  ghost function Total(grants: Grants, from: string, to: string): nat {
    if grants == map[] then 0
    else
      var k :| k in grants;
      Occurrences(grants[k], from, to) + Total(grants - {k}, from, to)
  }

  // Which grant is counted first does not matter.
  lemma {:induction false} TotalRemove(grants: Grants, k: string, from: string, to: string)
    requires k in grants
    ensures Total(grants, from, to) == Occurrences(grants[k], from, to) + Total(grants - {k}, from, to)
    decreases |grants|
  {
    var h :| h in grants && Total(grants, from, to) == Occurrences(grants[h], from, to) + Total(grants - {h}, from, to);
    if h != k {
      TotalRemove(grants - {h}, k, from, to);
      TotalRemove(grants - {k}, h, from, to);
      assert grants - {h} - {k} == grants - {k} - {h};
    }
  }

  lemma TotalPut(grants: Grants, k: string, rg: ReferenceGrant, from: string, to: string)
    ensures Total(grants[k := rg], from, to) == Total(grants - {k}, from, to) + Occurrences(rg, from, to)
  {
    TotalRemove(grants[k := rg], k, from, to);
    assert grants[k := rg] - {k} == grants - {k};
  }

  lemma CountHead(xs: seq<string>, x: string)
    requires xs != []
    ensures multiset(xs)[x] == multiset(xs[1..])[x] + (if xs[0] == x then 1 else 0)
  {
    assert xs == [xs[0]] + xs[1..];
  }

  lemma WrapAdd(a: int, b: int)
    ensures Wrap(Wrap(a) + b) == Wrap(a + b)
    ensures -128 <= a < 128 ==> Wrap(a) == a
  {
  }

  lemma {:induction false} AddTosCounts(row: Row, tos: seq<string>, to: string)
    ensures Value(AddTos(row, tos), to) == Wrap(Value(row, to) as int + multiset(tos)[to])
    ensures to in AddTos(row, tos) <==> to in row || to in tos
    decreases |tos|
  {
    if tos == [] {
      WrapAdd(Value(row, to), 0);
    } else {
      var next := row[tos[0] := Wrap(Value(row, tos[0]) as int + 1)];
      AddTosCounts(next, tos[1..], to);
      CountHead(tos, to);
      WrapAdd(Value(row, to) as int + 1, multiset(tos[1..])[to]);
      assert to in tos <==> to == tos[0] || to in tos[1..];
    }
  }

  // `set` adds its occurrences to every count, modulo 256.
  lemma {:induction false} AddPairsCounts(idx: Index, froms: seq<string>, tos: seq<string>, from: string, to: string)
    ensures Entry(AddPairs(idx, froms, tos), from, to) ==
      Wrap(Entry(idx, from, to) as int + Pairs(froms, tos, from, to))
    ensures from in AddPairs(idx, froms, tos) <==> from in idx || from in froms
    ensures from in AddPairs(idx, froms, tos) ==>
      (to in AddPairs(idx, froms, tos)[from] <==> (from in idx && to in idx[from]) || (from in froms && to in tos))
    decreases |froms|
  {
    if froms == [] {
      WrapAdd(Entry(idx, from, to), 0);
    } else {
      var row := if froms[0] in idx then idx[froms[0]] else map[];
      var next := idx[froms[0] := AddTos(row, tos)];
      AddPairsCounts(next, froms[1..], tos, from, to);
      AddTosCounts(row, tos, to);
      WrapAdd(Entry(idx, from, to) as int + multiset(tos)[to], Pairs(froms[1..], tos, from, to));
      assert from in froms <==> from == froms[0] || from in froms[1..];
    }
  }

  ghost predicate PositiveRow(row: Row) {
    forall t :: t in row ==> row[t] > 0
  }

  ghost predicate Positive(idx: Index) {
    forall f :: f in idx ==> PositiveRow(idx[f])
  }

  // While the counts cover what is dropped, no decrement is skipped and none passes zero.
  lemma {:induction false} DropTosCounts(row: Row, tos: seq<string>)
    requires PositiveRow(row)
    requires forall t :: Value(row, t) >= multiset(tos)[t]
    ensures PositiveRow(DropTos(row, tos))
    ensures forall t :: Value(DropTos(row, tos), t) == Value(row, t) as int - multiset(tos)[t]
    decreases |tos|
  {
    if tos != [] {
      var next := DropTo(row, tos[0]);
      forall t ensures multiset(tos)[t] == multiset(tos[1..])[t] + (if t == tos[0] then 1 else 0) {
        CountHead(tos, t);
      }
      assert Value(row, tos[0]) >= multiset(tos)[tos[0]] >= 1;
      assert forall t :: Value(next, t) == Value(row, t) as int - (if t == tos[0] then 1 else 0);
      DropTosCounts(next, tos[1..]);
    }
  }

  lemma {:induction false} DropPairsCounts(idx: Index, froms: seq<string>, tos: seq<string>)
    requires Positive(idx)
    requires forall f :: f in froms ==> f in idx
    requires forall f, t :: Entry(idx, f, t) >= Pairs(froms, tos, f, t)
    ensures Positive(DropPairs(idx, froms, tos))
    ensures DropPairs(idx, froms, tos).Keys == idx.Keys
    ensures forall f, t :: Entry(DropPairs(idx, froms, tos), f, t) == Entry(idx, f, t) as int - Pairs(froms, tos, f, t)
    decreases |froms|
  {
    if froms != [] {
      var f, rest := froms[0], froms[1..];
      forall t ensures Value(idx[f], t) >= multiset(tos)[t] {
        assert Entry(idx, f, t) >= Pairs(froms, tos, f, t);
      }
      DropTosCounts(idx[f], tos);
      var next := idx[f := DropTos(idx[f], tos)];
      forall g, t
        ensures Entry(next, g, t) == Entry(idx, g, t) as int - (if g == f then multiset(tos)[t] else 0)
        ensures Pairs(froms, tos, g, t) == (if g == f then multiset(tos)[t] else 0) + Pairs(rest, tos, g, t)
      {
      }
      DropPairsCounts(next, rest, tos);
    }
  }

  /******* The index is exact *******/

  // Every entry is the number of times the stored grants list its pair, and none is zero or
  // negative. Every from-key of a stored grant has a row, so `unset` never returns early.
  ghost predicate Exact(idx: Index, grants: Grants) {
    && (forall f, t :: Entry(idx, f, t) == Total(grants, f, t))
    && Positive(idx)
    && (forall k, f :: k in grants && f in FromKeys(grants[k].from) ==> f in idx)
  }

  ghost predicate Bounded(grants: Grants) {
    forall f, t :: Total(grants, f, t) <= 127
  }

  // The two halves of _setReferenceGrant, and UnsetReferenceGrant.
  function PutIndex(idx: Index, grants: Grants, rg: ReferenceGrant): Index {
    var k := Key(rg.ns, rg.name);
    AddGrant(if k in grants then DropGrant(idx, grants[k]) else idx, rg)
  }

  function RemoveIndex(idx: Index, grants: Grants, k: string): Index {
    if k in grants then DropGrant(idx, grants[k]) else idx
  }

  lemma RemoveExact(idx: Index, grants: Grants, k: string)
    requires Exact(idx, grants)
    ensures Exact(RemoveIndex(idx, grants, k), grants - {k})
  {
    if k in grants {
      forall f, t
        ensures Total(grants, f, t) == Occurrences(grants[k], f, t) + Total(grants - {k}, f, t)
      {
        TotalRemove(grants, k, f, t);
      }
      DropPairsCounts(idx, FromKeys(grants[k].from), ToKeys(grants[k].to, grants[k].ns));
    } else {
      assert grants - {k} == grants;
    }
  }

  // A grant is set on an exact index: every entry becomes its count modulo 256, as an int8.
  lemma AddWraps(idx: Index, grants: Grants, k: string, rg: ReferenceGrant, f: string, t: string)
    requires Exact(idx, grants - {k})
    ensures Entry(AddGrant(idx, rg), f, t) == Wrap(Total(grants[k := rg], f, t))
    ensures f in AddGrant(idx, rg) && t in AddGrant(idx, rg)[f] ==> Total(grants[k := rg], f, t) > 0
    ensures f in idx || f in FromKeys(rg.from) ==> f in AddGrant(idx, rg)
  {
    var froms, tos := FromKeys(rg.from), ToKeys(rg.to, rg.ns);
    AddPairsCounts(idx, froms, tos, f, t);
    TotalPut(grants, k, rg, f, t);
    PairsPositive(froms, tos, f, t);
    if f in idx && t in idx[f] {
      assert PositiveRow(idx[f]) && Total(grants - {k}, f, t) == idx[f][t];
    }
  }

  lemma PutExact(idx: Index, grants: Grants, rg: ReferenceGrant)
    requires Exact(idx, grants) && Bounded(grants[Key(rg.ns, rg.name) := rg])
    ensures Exact(PutIndex(idx, grants, rg), grants[Key(rg.ns, rg.name) := rg])
  {
    var k := Key(rg.ns, rg.name);
    var idx0, grants' := RemoveIndex(idx, grants, k), grants[k := rg];
    RemoveExact(idx, grants, k);
    var idx' := AddGrant(idx0, rg);
    forall f, t
      ensures Entry(idx', f, t) == Total(grants', f, t)
      ensures f in idx' && t in idx'[f] ==> idx'[f][t] > 0
    {
      AddWraps(idx0, grants, k, rg, f, t);
      WrapAdd(Total(grants', f, t), 0);
    }
    forall j, f | j in grants' && f in FromKeys(grants'[j].from)
      ensures f in idx'
    {
      AddWraps(idx0, grants, k, rg, f, "");
      if j != k { assert j in grants - {k}; }
    }
  }

  datatype Op = Put(rg: ReferenceGrant) | Remove(key: string)

  function ApplyIndex(idx: Index, grants: Grants, op: Op): Index {
    match op
    case Put(rg) => PutIndex(idx, grants, rg)
    case Remove(k) => RemoveIndex(idx, grants, k)
  }

  function ApplyGrants(grants: Grants, op: Op): Grants {
    match op
    case Put(rg) => grants[Key(rg.ns, rg.name) := rg]
    case Remove(k) => grants - {k}
  }

  function RunGrants(ops: seq<Op>): Grants {
    if ops == [] then map[] else ApplyGrants(RunGrants(ops[..|ops| - 1]), ops[|ops| - 1])
  }

  function RunIndex(ops: seq<Op>): Index {
    if ops == [] then map[]
    else ApplyIndex(RunIndex(ops[..|ops| - 1]), RunGrants(ops[..|ops| - 1]), ops[|ops| - 1])
  }

  // Over every run in which no pair is ever listed more than 127 times, the index is exact.
  lemma {:induction false} IndexExactOverRuns(ops: seq<Op>)
    requires forall i :: 0 <= i <= |ops| ==> Bounded(RunGrants(ops[..i]))
    ensures Exact(RunIndex(ops), RunGrants(ops))
    decreases |ops|
  {
    if ops != [] {
      var init, op := ops[..|ops| - 1], ops[|ops| - 1];
      forall i | 0 <= i <= |init| ensures Bounded(RunGrants(init[..i])) {
        assert init[..i] == ops[..i];
      }
      IndexExactOverRuns(init);
      assert ops[..|ops|] == ops;
      match op
      case Put(rg) => PutExact(RunIndex(init), RunGrants(init), rg);
      case Remove(k) => RemoveExact(RunIndex(init), RunGrants(init), k);
    }
  }

  /******* Beyond the bound *******/

  // Every entry is its count modulo 256, as an int8, and there is one only for what is listed.
  ghost predicate Wrapped(idx: Index, grants: Grants) {
    && (forall f, t :: Entry(idx, f, t) == Wrap(Total(grants, f, t)))
    && (forall f, t :: f in idx && t in idx[f] ==> Total(grants, f, t) > 0)
    && (forall k, f :: k in grants && f in FromKeys(grants[k].from) ==> f in idx)
  }

  ghost predicate Countable(grants: Grants) {
    forall f, t :: Total(grants, f, t) <= 255
  }

  // While counts stay below 256, a decrement reaches zero only with the last listing.
  lemma {:induction false} DropTosWraps(row: Row, tos: seq<string>, rest: string -> nat)
    requires forall t :: Value(row, t) == Wrap(rest(t) + multiset(tos)[t]) && rest(t) + multiset(tos)[t] <= 255
    requires forall t :: t in row ==> rest(t) + multiset(tos)[t] > 0
    ensures forall t :: Value(DropTos(row, tos), t) == Wrap(rest(t))
    ensures forall t :: t in DropTos(row, tos) ==> rest(t) > 0
    decreases |tos|
  {
    if tos != [] {
      var next, tail := DropTo(row, tos[0]), tos[1..];
      forall t
        ensures Value(next, t) == Wrap(rest(t) + multiset(tail)[t]) && rest(t) + multiset(tail)[t] <= 255
        ensures t in next ==> rest(t) + multiset(tail)[t] > 0
      {
        CountHead(tos, t);
        DropToWraps(row, tos[0], t, rest(t) + multiset(tos)[t]);
      }
      DropTosWraps(next, tail, rest);
    } else {
      assert forall t :: multiset(tos)[t] == 0;
    }
  }

  lemma DropToWraps(row: Row, to: string, t: string, n: nat)
    requires Value(row, t) == Wrap(n) && n <= 255 && (t in row ==> n > 0) && (t == to ==> n > 0)
    ensures var m: nat := if t == to then n - 1 else n;
      Value(DropTo(row, to), t) == Wrap(m) && (t in DropTo(row, to) ==> m > 0)
  {
    WrapAdd(n, -1);
  }

  // Every entry is, modulo 256, what the grants list and these entries list beside them.
  ghost predicate Covers(idx: Index, grants: Grants, froms: seq<string>, tos: seq<string>) {
    forall f, t :: CoversPair(idx, grants, froms, tos, f, t)
  }

  ghost predicate CoversRow(idx: Index, grants: Grants, froms: seq<string>, tos: seq<string>, f: string) {
    forall t :: CoversPair(idx, grants, froms, tos, f, t)
  }

  ghost predicate CoversPair(idx: Index, grants: Grants, froms: seq<string>, tos: seq<string>, f: string, t: string) {
    var n := Total(grants, f, t) + Pairs(froms, tos, f, t);
    n <= 255 && Entry(idx, f, t) == Wrap(n) && (f in idx && t in idx[f] ==> n > 0)
  }

  lemma DropRow(idx: Index, grants: Grants, froms: seq<string>, tos: seq<string>)
    requires froms != [] && froms[0] in idx && Covers(idx, grants, froms, tos)
    ensures Covers(idx[froms[0] := DropTos(idx[froms[0]], tos)], grants, froms[1..], tos)
  {
    var f, tail := froms[0], froms[1..];
    var next := idx[f := DropTos(idx[f], tos)];
    DropOwnRow(idx, grants, froms, tos);
    forall g, t ensures CoversPair(next, grants, tail, tos, g, t) {
      assert CoversPair(idx, grants, froms, tos, g, t);
      assert g != f ==> Pairs(froms, tos, g, t) == Pairs(tail, tos, g, t);
    }
  }

  // The count of the row's entry without its own from-entry's to-entries.
  ghost function Rest(grants: Grants, froms: seq<string>, tos: seq<string>, f: string): string -> nat {
    t => Total(grants, f, t) + Pairs(froms, tos, f, t)
  }

  lemma DropOwnRow(idx: Index, grants: Grants, froms: seq<string>, tos: seq<string>)
    requires froms != [] && froms[0] in idx && Covers(idx, grants, froms, tos)
    ensures CoversRow(idx[froms[0] := DropTos(idx[froms[0]], tos)], grants, froms[1..], tos, froms[0])
  {
    var f, tail := froms[0], froms[1..];
    var rest, next := Rest(grants, tail, tos, f), idx[f := DropTos(idx[f], tos)];
    forall t
      ensures Value(idx[f], t) == Wrap(rest(t) + multiset(tos)[t]) && rest(t) + multiset(tos)[t] <= 255
      ensures t in idx[f] ==> rest(t) + multiset(tos)[t] > 0
    {
      OwnValue(idx, grants, froms, tos, t);
    }
    DropTosWraps(idx[f], tos, rest);
    forall t ensures CoversPair(next, grants, tail, tos, f, t) {
      OwnValue(idx, grants, froms, tos, t);
      OwnPair(idx, grants, froms, tos, DropTos(idx[f], tos), t);
    }
  }

  lemma OwnValue(idx: Index, grants: Grants, froms: seq<string>, tos: seq<string>, t: string)
    requires froms != [] && froms[0] in idx && Covers(idx, grants, froms, tos)
    ensures var n := Rest(grants, froms[1..], tos, froms[0])(t) + multiset(tos)[t];
      n <= 255 && Value(idx[froms[0]], t) == Wrap(n) && (t in idx[froms[0]] ==> n > 0)
  {
    assert CoversPair(idx, grants, froms, tos, froms[0], t);
  }

  lemma OwnPair(idx: Index, grants: Grants, froms: seq<string>, tos: seq<string>, row: Row, t: string)
    requires froms != [] && Rest(grants, froms[1..], tos, froms[0])(t) <= 255
    requires Value(row, t) == Wrap(Rest(grants, froms[1..], tos, froms[0])(t))
    requires t in row ==> Rest(grants, froms[1..], tos, froms[0])(t) > 0
    ensures CoversPair(idx[froms[0] := row], grants, froms[1..], tos, froms[0], t)
  {
  }

  lemma {:induction false} DropPairsWraps(idx: Index, grants: Grants, froms: seq<string>, tos: seq<string>)
    requires (forall f :: f in froms ==> f in idx) && Covers(idx, grants, froms, tos)
    ensures DropPairs(idx, froms, tos).Keys == idx.Keys && Covers(DropPairs(idx, froms, tos), grants, [], tos)
    decreases |froms|
  {
    if froms != [] {
      DropRow(idx, grants, froms, tos);
      DropPairsWraps(idx[froms[0] := DropTos(idx[froms[0]], tos)], grants, froms[1..], tos);
    }
  }

  lemma RemoveWrapped(idx: Index, grants: Grants, k: string)
    requires Wrapped(idx, grants) && Countable(grants)
    ensures Wrapped(RemoveIndex(idx, grants, k), grants - {k})
  {
    if k in grants {
      var froms, tos := FromKeys(grants[k].from), ToKeys(grants[k].to, grants[k].ns);
      forall f, t ensures CoversPair(idx, grants - {k}, froms, tos, f, t) {
        TotalRemove(grants, k, f, t);
      }
      DropPairsWraps(idx, grants - {k}, froms, tos);
      var idx' := DropPairs(idx, froms, tos);
      forall f, t
        ensures Entry(idx', f, t) == Wrap(Total(grants - {k}, f, t))
        ensures f in idx' && t in idx'[f] ==> Total(grants - {k}, f, t) > 0
      {
        assert CoversPair(idx', grants - {k}, [], tos, f, t);
      }
    } else {
      assert grants - {k} == grants;
    }
  }

  lemma AddWrapped(idx: Index, grants: Grants, k: string, rg: ReferenceGrant, f: string, t: string)
    requires Wrapped(idx, grants - {k})
    ensures Entry(AddGrant(idx, rg), f, t) == Wrap(Total(grants[k := rg], f, t))
    ensures f in AddGrant(idx, rg) && t in AddGrant(idx, rg)[f] ==> Total(grants[k := rg], f, t) > 0
    ensures f in idx || f in FromKeys(rg.from) ==> f in AddGrant(idx, rg)
  {
    var froms, tos := FromKeys(rg.from), ToKeys(rg.to, rg.ns);
    var n, m := Total(grants - {k}, f, t), Pairs(froms, tos, f, t);
    AddPairsCounts(idx, froms, tos, f, t);
    TotalPut(grants, k, rg, f, t);
    PairsPositive(froms, tos, f, t);
    assert Entry(idx, f, t) == Wrap(n) && (f in idx && t in idx[f] ==> n > 0);
    WrapAdd(n, m);
  }

  lemma PutWrapped(idx: Index, grants: Grants, rg: ReferenceGrant)
    requires Wrapped(idx, grants) && Countable(grants)
    ensures Wrapped(PutIndex(idx, grants, rg), grants[Key(rg.ns, rg.name) := rg])
  {
    var k := Key(rg.ns, rg.name);
    var idx0, grants' := RemoveIndex(idx, grants, k), grants[k := rg];
    RemoveWrapped(idx, grants, k);
    var idx' := AddGrant(idx0, rg);
    forall f, t
      ensures Entry(idx', f, t) == Wrap(Total(grants', f, t))
      ensures f in idx' && t in idx'[f] ==> Total(grants', f, t) > 0
    {
      AddWrapped(idx0, grants, k, rg, f, t);
    }
    forall j, f | j in grants' && f in FromKeys(grants'[j].from)
      ensures f in idx'
    {
      AddWrapped(idx0, grants, k, rg, f, "");
      if j != k { assert j in grants - {k}; }
    }
  }

  lemma {:induction false} WrappedOverRuns(ops: seq<Op>)
    requires forall i :: 0 <= i < |ops| ==> Countable(RunGrants(ops[..i]))
    ensures Wrapped(RunIndex(ops), RunGrants(ops))
    decreases |ops|
  {
    if ops != [] {
      var init, op := ops[..|ops| - 1], ops[|ops| - 1];
      forall i | 0 <= i < |init| ensures Countable(RunGrants(init[..i])) {
        assert init[..i] == ops[..i];
      }
      WrappedOverRuns(init);
      match op
      case Put(rg) => PutWrapped(RunIndex(init), RunGrants(init), rg);
      case Remove(k) => RemoveWrapped(RunIndex(init), RunGrants(init), k);
    }
  }

  // Over every run in which no pair is ever listed more than 255 times, `exists` is wrong only
  // while a pair is listed 128 times or more, and right again when it no longer is.
  lemma ExistsOverRuns(ops: seq<Op>, f: string, t: string)
    requires forall i :: 0 <= i <= |ops| ==> Countable(RunGrants(ops[..i]))
    ensures Exists(RunIndex(ops), f, t) <==> 1 <= Total(RunGrants(ops), f, t) <= 127
  {
    WrappedOverRuns(ops);
    assert ops[..|ops|] == ops;
    assert Countable(RunGrants(ops[..|ops|]));
    WrappedExists(RunIndex(ops), RunGrants(ops), f, t);
  }

  lemma WrappedExists(idx: Index, grants: Grants, f: string, t: string)
    requires Wrapped(idx, grants) && Total(grants, f, t) <= 255
    ensures Exists(idx, f, t) <==> 1 <= Total(grants, f, t) <= 127
  {
    assert Entry(idx, f, t) == Wrap(Total(grants, f, t));
    ExistsEntry(idx, f, t);
    WrapPositive(Total(grants, f, t));
  }

  // The bound is tight: a grant set on an exact index leaves `exists` right about a pair if and
  // only if the pair's new count, as an int8, is not negative and not a non-zero multiple of 256.
  lemma ExistsRightIff(idx: Index, grants: Grants, rg: ReferenceGrant, f: string, t: string)
    requires Exact(idx, grants)
    ensures var n := Total(grants[Key(rg.ns, rg.name) := rg], f, t);
      (Exists(PutIndex(idx, grants, rg), f, t) <==> n > 0) <==> (n == 0 || 1 <= n % 256 <= 127)
  {
    var k := Key(rg.ns, rg.name);
    RemoveExact(idx, grants, k);
    AddWraps(RemoveIndex(idx, grants, k), grants, k, rg, f, t);
    ExistsEntry(PutIndex(idx, grants, rg), f, t);
    WrapPositive(Total(grants[k := rg], f, t));
  }

  lemma ExistsEntry(idx: Index, f: string, t: string)
    ensures Exists(idx, f, t) <==> Entry(idx, f, t) > 0
  {
  }

  lemma WrapPositive(n: nat)
    ensures Wrap(n) > 0 <==> 1 <= n % 256 <= 127
  {
  }

  /******* Rows of other from-keys *******/

  // Whatever the counts, an operation touches only the rows of the grant's own from-keys.
  lemma {:induction false} AddPairsFrame(idx: Index, froms: seq<string>, tos: seq<string>, from: string)
    requires from !in froms
    ensures Lookup(AddPairs(idx, froms, tos), from) == Lookup(idx, from)
    decreases |froms|
  {
    if froms != [] {
      var row := if froms[0] in idx then idx[froms[0]] else map[];
      AddPairsFrame(idx[froms[0] := AddTos(row, tos)], froms[1..], tos, from);
    }
  }

  lemma {:induction false} DropPairsFrame(idx: Index, froms: seq<string>, tos: seq<string>, from: string)
    requires from !in froms
    ensures Lookup(DropPairs(idx, froms, tos), from) == Lookup(idx, from)
    decreases |froms|
  {
    if froms != [] && froms[0] in idx {
      DropPairsFrame(idx[froms[0] := DropTos(idx[froms[0]], tos)], froms[1..], tos, from);
    }
  }
}
