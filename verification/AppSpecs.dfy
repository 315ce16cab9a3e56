/** The product-intent document of schemas/app_spec.py, after its structure has been checked. */
module AppSpecs {
  datatype Item = Item(id: string, text: string)

  datatype Criterion = Criterion(id: string, text: string, sourceIds: seq<string>)

  datatype AppSpec = AppSpec(
    goal: string,
    targetUsers: seq<string>,
    features: seq<Item>,
    dataRequirements: seq<Item>,
    interfaceRequirements: seq<Item>,
    constraints: seq<Item>,
    acceptanceCriteria: seq<Criterion>,
    openQuestions: seq<string>)

  predicate Distinct<T(==)>(s: seq<T>) {
    forall i, j :: 0 <= i < j < |s| ==> s[i] != s[j]
  }

  function Elements<T>(s: seq<T>): set<T> {
    set x | x in s
  }

  lemma {:induction false} ElementsCons<T>(x: T, s: seq<T>)
    ensures Elements([x] + s) == {x} + Elements(s)
  {
  }

  function ItemIds(items: seq<Item>): (ids: seq<string>)
    ensures |ids| == |items| && forall i :: 0 <= i < |items| ==> ids[i] == items[i].id
  {
    seq(|items|, i requires 0 <= i < |items| => items[i].id)
  }

  function FeatureIds(spec: AppSpec): set<string> {
    Elements(ItemIds(spec.features))
  }

  lemma {:induction false} DistinctByMultiset(s: seq<string>, r: seq<string>)
    requires Distinct(s) && multiset(r) == multiset(s)
    ensures Distinct(r)
  {
    forall i, j | 0 <= i < j < |r|
      ensures r[i] != r[j]
    {
      if r[i] == r[j] {
        assert r == r[..i] + [r[i]] + r[i + 1..j] + [r[j]] + r[j + 1..];
        assert multiset(r)[r[i]] >= 2;
        OnceOnly(s, r[i]);
      }
    }
  }

  lemma {:induction false} OnceOnly(s: seq<string>, x: string)
    requires Distinct(s)
    ensures multiset(s)[x] <= 1
  {
    if s != [] {
      assert s == [s[0]] + s[1..];
      OnceOnly(s[1..], x);
      if x == s[0] {
        assert x !in s[1..];
      }
    }
  }
}
