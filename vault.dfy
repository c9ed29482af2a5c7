/**
 * The named vaults: a map from vault name to vault directory, the three
 * default vaults, and the sorted list of names.
 */
module Vault {
  import opened Text
  import opened Sorting

  /** A set of vaults, by name. */
  datatype Vaults = Vaults(m: map<string, string>)

  /** Vaults over the given map; the program treats a missing map as an empty one. */
  function New(m: map<string, string>): (v: Vaults)
    ensures forall name :: Has(v, name) <==> name in m
  {
    Vaults(m)
  }

  /** The three default vaults under `~/Documents/Obsidian`. */
  function DefaultVaults(): Vaults
  {
    Vaults(map[
      "develop" := "~/Documents/Obsidian/develop",
      "work" := "~/Documents/Obsidian/work",
      "private" := "~/Documents/Obsidian/private"])
  }

  predicate Has(v: Vaults, name: string)
  {
    name in v.m
  }

  /** The directory of vault `name` and `true`, or `""` and `false` when there is none. */
  function Path(v: Vaults, name: string): (r: (string, bool))
    ensures r.1 <==> Has(v, name)
    ensures r.1 ==> r.0 == v.m[name]
    ensures !r.1 ==> r.0 == ""
  {
    if name in v.m then (v.m[name], true) else ("", false)
  }

  // ------------------------------------------------------------ sorted names

  /** `x` comes first in `s` in string order. */
  predicate IsLeast(s: set<string>, x: string)
  {
    x in s && forall y :: y in s ==> !StrLess(y, x)
  }

  lemma {:induction false} LeastExists(s: set<string>)
    requires s != {}
    ensures exists x :: IsLeast(s, x)
    decreases |s|
  {
    var y :| y in s;
    if s == {y} {
      StrLessIrreflexive(y);
      assert IsLeast(s, y);
    } else {
      LeastExists(s - {y});
      var x :| IsLeast(s - {y}, x);
      StrLessTotal(x, y);
      if StrLess(y, x) {
        forall z | z in s ensures !StrLess(z, y) {
          if z != y && StrLess(z, y) {
            StrLessTransitive(z, y, x);
          }
          StrLessIrreflexive(y);
        }
        assert IsLeast(s, y);
      } else {
        assert IsLeast(s, x);
      }
    }
  }

  lemma LeastUnique(s: set<string>)
    ensures forall x, y :: IsLeast(s, x) && IsLeast(s, y) ==> x == y
  {
    forall x, y | IsLeast(s, x) && IsLeast(s, y) ensures x == y {
      StrLessTotal(x, y);
    }
  }

  /** The names of `s` in ascending string order, each once. */
  function SortedKeys(s: set<string>): seq<string>
    decreases s
  {
    if s == {} then []
    else
      LeastExists(s);
      LeastUnique(s);
      var x :| IsLeast(s, x);
      [x] + SortedKeys(s - {x})
  }

  /** Ascending, with no repeats. */
  predicate StrictlySorted(xs: seq<string>)
  {
    forall i, j :: 0 <= i < j < |xs| ==> StrLess(xs[i], xs[j])
  }

  /** `SortedKeys(s)` lists every member of `s` exactly once, in strictly ascending order. */
  lemma {:induction false} SortedKeysShape(s: set<string>)
    ensures StrictlySorted(SortedKeys(s))
    ensures multiset(SortedKeys(s)) == multiset(s)
    decreases s
  {
    if s != {} {
      LeastExists(s);
      LeastUnique(s);
      var x :| IsLeast(s, x);
      var rest := SortedKeys(s - {x});
      SortedKeysShape(s - {x});
      assert SortedKeys(s) == [x] + rest;
      forall k | 0 <= k < |rest| ensures StrLess(x, rest[k]) {
        assert rest[k] in multiset(s - {x});
        StrLessTotal(x, rest[k]);
      }
      assert multiset(s) == multiset{x} + multiset(s - {x});
    }
  }

  /** The key `sort.Strings` orders by. */
  function NameKey(n: string): Key
  {
    Key(0, n, "")
  }

  /** A strictly ascending list of exactly the members of `s` is `SortedKeys(s)`. */
  lemma SortedKeysUnique(s: set<string>, xs: seq<string>)
    requires StrictlySorted(xs)
    requires multiset(xs) == multiset(s)
    ensures SortedKeys(s) == xs
  {
    SortedKeysShape(s);
    var r := SortedKeys(s);
    assert SortedBy(xs, NameKey) by {
      forall i, j | 0 <= i < j < |xs| ensures !KeyLess(NameKey(xs[j]), NameKey(xs[i])) {
        StrLessAsymmetric(xs[i], xs[j]);
      }
    }
    assert SortedBy(r, NameKey) by {
      forall i, j | 0 <= i < j < |r| ensures !KeyLess(NameKey(r[j]), NameKey(r[i])) {
        StrLessAsymmetric(r[i], r[j]);
      }
    }
    SortedUnique(r, xs, NameKey);
  }

  /** `Names`: the vault names in ascending order. */
  function NamesSpec(v: Vaults): seq<string>
  {
    SortedKeys(v.m.Keys)
  }

  /** `Names`: collects the names in the map's (unspecified) order, then sorts them. */
  method Names(v: Vaults) returns (out: seq<string>)
    ensures out == NamesSpec(v)
  {
    out := [];
    var keys := v.m.Keys;
    while keys != {}
      invariant multiset(out) + multiset(keys) == multiset(v.m.Keys)
      decreases keys
    {
      var k :| k in keys;
      assert multiset(keys) == multiset(keys - {k}) + multiset{k};
      out := out + [k];
      keys := keys - {k};
    }
    var unsorted := out;
    out := SortBy(out, NameKey);
    SortBySortsAndPermutes(unsorted, NameKey);
    SortedKeysShape(v.m.Keys);
    assert SortedBy(SortedKeys(v.m.Keys), NameKey) by {
      var r := SortedKeys(v.m.Keys);
      forall i, j | 0 <= i < j < |r| ensures !KeyLess(NameKey(r[j]), NameKey(r[i])) {
        StrLessAsymmetric(r[i], r[j]);
      }
    }
    SortedUnique(out, SortedKeys(v.m.Keys), NameKey);
  }

  /** A vault exists exactly when its name is listed; the list has one entry per vault. */
  lemma HasIffListed(v: Vaults, name: string)
    ensures Has(v, name) <==> name in NamesSpec(v)
    ensures |NamesSpec(v)| == |v.m|
  {
    SortedKeysShape(v.m.Keys);
    assert name in NamesSpec(v) <==> name in multiset(NamesSpec(v));
    assert |multiset(NamesSpec(v))| == |multiset(v.m.Keys)|;
  }

  /** No vaults, no names. */
  lemma NoVaultsNoNames(v: Vaults)
    requires v.m == map[]
    ensures NamesSpec(v) == []
  {
  }

  /** The default vaults are listed as develop, private, work. */
  lemma DefaultNames()
    ensures NamesSpec(DefaultVaults()) == ["develop", "private", "work"]
  {
    var xs := ["develop", "private", "work"];
    assert StrLess("develop", "private");
    assert StrLess("private", "work");
    StrLessTransitive("develop", "private", "work");
    assert DefaultVaults().m.Keys == {"develop", "private", "work"};
    assert multiset(xs) == multiset({"develop", "private", "work"});
    SortedKeysUnique(DefaultVaults().m.Keys, xs);
  }
}
