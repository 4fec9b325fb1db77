/** The key order of `std::map<std::string, ...>` and of `nlohmann::json` objects. */
module Keys {

  predicate Leq(a: string, b: string) {
    a == "" || (b != "" && (a[0] < b[0] || (a[0] == b[0] && Leq(a[1..], b[1..]))))
  }

  lemma {:induction false} LeqTotal(a: string, b: string)
    ensures Leq(a, b) || Leq(b, a)
    ensures Leq(a, b) && Leq(b, a) ==> a == b
  {
    if a != "" && b != "" && a[0] == b[0] {
      LeqTotal(a[1..], b[1..]);
      assert a == [a[0]] + a[1..] && b == [b[0]] + b[1..];
    }
  }

  lemma {:induction false} LeqTransitive(a: string, b: string, c: string)
    requires Leq(a, b) && Leq(b, c)
    ensures Leq(a, c)
  {
    if a != "" && a[0] == b[0] == c[0] {
      LeqTransitive(a[1..], b[1..], c[1..]);
    }
  }

  predicate IsFirst(k: string, s: set<string>) {
    k in s && forall j :: j in s ==> Leq(k, j)
  }

  lemma FirstExists(s: set<string>) returns (k: string)
    requires s != {}
    ensures IsFirst(k, s)
  {
    k :| k in s;
    LeqTotal(k, k);
    if s != {k} {
      var m := FirstExists(s - {k});
      LeqTotal(k, m);
      var least := if Leq(k, m) then k else m;
      forall j | j in s ensures Leq(least, j) {
        LeqTotal(m, m);
        if j != k {
          assert j in s - {k};
          LeqTransitive(least, m, j);
        }
      }
      k := least;
    }
  }

  /** The keys of a map in iteration order. */
  ghost function Sorted(s: set<string>): (r: seq<string>)
    ensures forall k :: k in r <==> k in s
    ensures forall i, j :: 0 <= i < j < |r| ==> r[i] != r[j]
  {
    if s == {} then []
    else
      assert exists k :: IsFirst(k, s) by { var k := FirstExists(s); }
      var k :| IsFirst(k, s);
      [k] + Sorted(s - {k})
  }

  /** Taking the first key off is one step of the iteration. */
  lemma SortedStep(k: string, s: set<string>)
    requires IsFirst(k, s)
    ensures Sorted(s) == [k] + Sorted(s - {k})
  {
    forall j | IsFirst(j, s) ensures j == k {
      LeqTotal(j, k);
    }
  }

  method First(s: set<string>) returns (k: string)
    requires s != {}
    ensures IsFirst(k, s)
  {
    ghost var first := FirstExists(s);
    k :| IsFirst(k, s);
  }

  /** The keys of a map in the order a range-for visits them. */
  method InOrder(keys: set<string>) returns (list: seq<string>)
    ensures list == Sorted(keys)
  {
    list := [];
    var todo := keys;
    while todo != {}
      invariant list + Sorted(todo) == Sorted(keys)
    {
      var key := First(todo);
      SortedStep(key, todo);
      AppendMoves(list, key, Sorted(todo - {key}));
      list, todo := list + [key], todo - {key};
    }
  }

  lemma AppendMoves(list: seq<string>, key: string, rest: seq<string>)
    ensures list + ([key] + rest) == (list + [key]) + rest
  {
  }
}
