/** The order in which a node set is iterated. The library iterates its hash-based sets in an
    order it does not document; the model fixes one total order on nodes (lexicographic on the
    four fields) and iterates every set in ascending order, so `first()` is the least node. */
module NodeOrder {

  import opened Wrappers
  import opened Nodes

  /** Lexicographic order on strings. */
  predicate StrLe(a: string, b: string)
    decreases |a|
  {
    a == [] || (b != [] && (a[0] < b[0] || (a[0] == b[0] && StrLe(a[1..], b[1..]))))
  }

  lemma {:induction false} StrLeTotal(a: string, b: string)
    ensures StrLe(a, b) || StrLe(b, a)
    decreases |a|
  {
    if a != [] && b != [] && a[0] == b[0] {
      StrLeTotal(a[1..], b[1..]);
    }
  }

  lemma {:induction false} StrLeAntisymmetric(a: string, b: string)
    requires StrLe(a, b) && StrLe(b, a)
    ensures a == b
    decreases |a|
  {
    if a != [] {
      StrLeAntisymmetric(a[1..], b[1..]);
      assert a == [a[0]] + a[1..];
      assert b == [b[0]] + b[1..];
    }
  }

  lemma {:induction false} StrLeTransitive(a: string, b: string, c: string)
    requires StrLe(a, b) && StrLe(b, c)
    ensures StrLe(a, c)
    decreases |a|
  {
    if a != [] && a[0] == b[0] && b[0] == c[0] {
      StrLeTransitive(a[1..], b[1..], c[1..]);
    }
  }

  predicate StrLt(a: string, b: string) {
    StrLe(a, b) && a != b
  }

  /** `None` (null) sorts before every string. */
  predicate OptLe(a: Option<string>, b: Option<string>) {
    a.None? || (b.Some? && StrLe(a.value, b.value))
  }

  /** Nodes compare by term type, then value, then language, then datatype. */
  predicate NodeLe(a: Node, b: Node) {
    if a.termType != b.termType then StrLe(a.termType, b.termType)
    else if a.value != b.value then StrLe(a.value, b.value)
    else if a.language != b.language then OptLe(a.language, b.language)
    else OptLe(a.dataType, b.dataType)
  }

  lemma OptLeTotal(a: Option<string>, b: Option<string>)
    ensures OptLe(a, b) || OptLe(b, a)
  {
    if a.Some? && b.Some? {
      StrLeTotal(a.value, b.value);
    }
  }

  lemma OptLeAntisymmetric(a: Option<string>, b: Option<string>)
    requires OptLe(a, b) && OptLe(b, a)
    ensures a == b
  {
    if a.Some? && b.Some? {
      StrLeAntisymmetric(a.value, b.value);
    }
  }

  lemma OptLeTransitive(a: Option<string>, b: Option<string>, c: Option<string>)
    requires OptLe(a, b) && OptLe(b, c)
    ensures OptLe(a, c)
  {
    if a.Some? {
      StrLeTransitive(a.value, b.value, c.value);
    }
  }

  lemma NodeLeTotal(a: Node, b: Node)
    ensures NodeLe(a, b) || NodeLe(b, a)
  {
    StrLeTotal(a.termType, b.termType);
    StrLeTotal(a.value, b.value);
    OptLeTotal(a.language, b.language);
    OptLeTotal(a.dataType, b.dataType);
  }

  lemma NodeLeAntisymmetric(a: Node, b: Node)
    requires NodeLe(a, b) && NodeLe(b, a)
    ensures a == b
  {
    if a.termType != b.termType {
      StrLeAntisymmetric(a.termType, b.termType);
    } else if a.value != b.value {
      StrLeAntisymmetric(a.value, b.value);
    } else if a.language != b.language {
      OptLeAntisymmetric(a.language, b.language);
    } else {
      OptLeAntisymmetric(a.dataType, b.dataType);
    }
  }

  lemma NodeLeTransitive(a: Node, b: Node, c: Node)
    requires NodeLe(a, b) && NodeLe(b, c)
    ensures NodeLe(a, c)
  {
    if a.termType != b.termType || b.termType != c.termType {
      if a.termType != b.termType && b.termType != c.termType {
        StrLeTransitive(a.termType, b.termType, c.termType);
        if a.termType == c.termType {
          StrLeAntisymmetric(a.termType, b.termType);
        }
      }
    } else if a.value != b.value || b.value != c.value {
      if a.value != b.value && b.value != c.value {
        StrLeTransitive(a.value, b.value, c.value);
        if a.value == c.value {
          StrLeAntisymmetric(a.value, b.value);
        }
      }
    } else if a.language != b.language || b.language != c.language {
      if a.language != b.language && b.language != c.language {
        OptLeTransitive(a.language, b.language, c.language);
        if a.language == c.language {
          OptLeAntisymmetric(a.language, b.language);
        }
      }
    } else {
      OptLeTransitive(a.dataType, b.dataType, c.dataType);
    }
  }

  predicate IsLeast(m: Node, s: set<Node>) {
    m in s && forall y :: y in s ==> NodeLe(m, y)
  }

  lemma {:induction false} LeastExists(s: set<Node>)
    requires s != {}
    ensures exists m :: IsLeast(m, s)
    decreases |s|
  {
    var x :| x in s;
    if s == {x} {
      assert IsLeast(x, s) by {
        forall y | y in s ensures NodeLe(x, y) {
          NodeLeTotal(x, y);
        }
      }
    } else {
      var rest := s - {x};
      LeastExists(rest);
      var m :| IsLeast(m, rest);
      NodeLeTotal(m, x);
      if NodeLe(m, x) {
        assert IsLeast(m, s);
      } else {
        assert IsLeast(x, s) by {
          forall y | y in s ensures NodeLe(x, y) {
            if y != x {
              NodeLeTransitive(x, m, y);
            } else {
              NodeLeTotal(x, x);
            }
          }
        }
      }
    }
  }

  lemma LeastUnique(s: set<Node>)
    ensures forall a, b :: IsLeast(a, s) && IsLeast(b, s) ==> a == b
  {
    forall a, b | IsLeast(a, s) && IsLeast(b, s) ensures a == b {
      NodeLeAntisymmetric(a, b);
    }
  }

  /** The least node of a non-empty set. */
  function Least(s: set<Node>): (m: Node)
    requires s != {}
    ensures IsLeast(m, s)
  {
    LeastExists(s);
    LeastUnique(s);
    var m :| IsLeast(m, s);
    m
  }

  /** Strictly ascending: each node precedes the next and they are all distinct. */
  predicate Ascending(xs: seq<Node>) {
    forall i, j :: 0 <= i < j < |xs| ==> NodeLe(xs[i], xs[j]) && xs[i] != xs[j]
  }

  /** The iteration order of a node set: its elements, each once, least first. */
  function Enumerate(s: set<Node>): (xs: seq<Node>)
    ensures |xs| == |s|
    ensures forall n :: n in xs <==> n in s
    ensures Ascending(xs)
    decreases |s|
  {
    if s == {} then []
    else
      var m := Least(s);
      var rest := Enumerate(s - {m});
      var xs := [m] + rest;
      assert Ascending(xs) by {
        forall i, j | 0 <= i < j < |xs| ensures NodeLe(xs[i], xs[j]) && xs[i] != xs[j] {
          if i == 0 {
            assert xs[j] == rest[j - 1] && xs[j] in s - {m};
          } else {
            assert xs[i] == rest[i - 1] && xs[j] == rest[j - 1];
          }
        }
      }
      xs
  }

  lemma SameElementsBothEmpty(xs: seq<Node>, ys: seq<Node>)
    requires forall n :: n in xs <==> n in ys
    ensures xs == [] <==> ys == []
  {
    if xs != [] {
      assert xs[0] in ys;
    }
    if ys != [] {
      assert ys[0] in xs;
    }
  }

  /** Two ascending sequences with the same elements are equal, so the iteration order of a set
      does not depend on how the set was built. */
  lemma {:induction false} AscendingUnique(xs: seq<Node>, ys: seq<Node>)
    requires Ascending(xs) && Ascending(ys)
    requires forall n :: n in xs <==> n in ys
    ensures xs == ys
    decreases |xs|
  {
    SameElementsBothEmpty(xs, ys);
    if xs != [] {
      assert xs[0] in ys && ys[0] in xs;
      var i :| 0 <= i < |ys| && ys[i] == xs[0];
      var j :| 0 <= j < |xs| && xs[j] == ys[0];
      if i != 0 {
        assert NodeLe(ys[0], ys[i]) && ys[0] != ys[i];
        assert j != 0 && NodeLe(xs[0], xs[j]);
        NodeLeAntisymmetric(xs[0], ys[0]);
      }
      assert xs[0] == ys[0];
      forall n ensures n in xs[1..] <==> n in ys[1..] {
        if n in xs[1..] {
          var k :| 0 <= k < |xs[1..]| && xs[1..][k] == n;
          assert xs[k + 1] == n && n != xs[0];
          assert n in ys;
        }
        if n in ys[1..] {
          var k :| 0 <= k < |ys[1..]| && ys[1..][k] == n;
          assert ys[k + 1] == n && n != ys[0];
          assert n in xs;
        }
      }
      AscendingUnique(xs[1..], ys[1..]);
      assert xs == [xs[0]] + xs[1..] && ys == [ys[0]] + ys[1..];
    }
  }

  /** `set.first()`: the first node in iteration order, or null for the empty set. */
  function First(s: set<Node>): (r: Option<Node>)
    ensures r.None? <==> s == {}
    ensures r.Some? ==> IsLeast(r.value, s)
  {
    if s == {} then None else Some(Enumerate(s)[0])
  }
}
