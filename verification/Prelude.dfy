/** Small vocabulary shared by all the models. */
module Prelude {
  datatype Option<+T> = None | Some(value: T)

  /** Row identifiers (uuids). Zero plays uuid.Nil. */
  type Id = nat

  /** The rows of s that satisfy p, in their old order: a WHERE clause. */
  function Where<T>(s: seq<T>, p: T -> bool): (r: seq<T>)
    ensures forall x | x in r :: x in s && p(x)
    ensures forall x | x in s && p(x) :: x in r
  {
    if s == [] then []
    else
      var rest := Where(s[..|s| - 1], p);
      if p(s[|s| - 1]) then rest + [s[|s| - 1]] else rest
  }

  lemma {:induction false} WhereConcat<T>(s: seq<T>, t: seq<T>, p: T -> bool)
    ensures Where(s + t, p) == Where(s, p) + Where(t, p)
  {
    if t == [] {
      assert s + t == s;
    } else {
      var init, x := t[..|t| - 1], t[|t| - 1];
      WhereConcat(s, init, p);
      var whole := s + t;
      assert whole[..|whole| - 1] == s + init && whole[|whole| - 1] == x;
      assert Where(whole, p) == Where(s + init, p) + if p(x) then [x] else [];
    }
  }

  lemma {:induction false} WhereAll<T>(s: seq<T>, p: T -> bool)
    requires forall x | x in s :: p(x)
    ensures Where(s, p) == s
  {
    if s != [] {
      WhereAll(s[..|s| - 1], p);
      assert s == s[..|s| - 1] + [s[|s| - 1]];
    }
  }

  lemma {:induction false} WhereNone<T>(s: seq<T>, p: T -> bool)
    requires forall x | x in s :: !p(x)
    ensures Where(s, p) == []
  {
    if s != [] { WhereNone(s[..|s| - 1], p); }
  }

  lemma {:induction false} WhereCommutes<T>(s: seq<T>, p: T -> bool, q: T -> bool)
    ensures Where(Where(s, p), q) == Where(Where(s, q), p)
  {
    if s != [] {
      var init, x := s[..|s| - 1], s[|s| - 1];
      WhereCommutes(init, p, q);
      WhereConcat(Where(init, p), [x], q);
      WhereConcat(Where(init, q), [x], p);
      assert [x][..0] == [];
    }
  }

  lemma {:induction false} WhereAgree<T>(s: seq<T>, p: T -> bool, q: T -> bool)
    requires forall x | x in s :: p(x) == q(x)
    ensures Where(s, p) == Where(s, q)
  {
    if s != [] { WhereAgree(s[..|s| - 1], p, q); }
  }

  function Members<T(==)>(s: seq<T>): set<T> { set x | x in s }

  lemma MembersOneMore<T>(s: seq<T>, k: nat)
    requires k < |s|
    ensures Members(s[..k + 1]) == Members(s[..k]) + {s[k]}
  {
    assert s[..k + 1] == s[..k] + [s[k]];
  }

  lemma HasFirst<T>(s: seq<T>)
    ensures s == [] || s[0] in s
  {}

  /** Rows rewritten one by one: an UPDATE without a WHERE clause. */
  function Each<T, U>(s: seq<T>, f: T -> U): (r: seq<U>)
    ensures |r| == |s| && forall k | 0 <= k < |s| :: r[k] == f(s[k])
  {
    seq(|s|, k requires 0 <= k < |s| => f(s[k]))
  }

  lemma EachConcat<T, U>(s: seq<T>, t: seq<T>, f: T -> U)
    ensures Each(s + t, f) == Each(s, f) + Each(t, f)
  {}

  lemma {:induction false} WhereEach<T, U>(s: seq<T>, f: T -> U, p: T -> bool, q: U -> bool)
    requires forall x | x in s :: q(f(x)) == p(x)
    ensures Where(Each(s, f), q) == Each(Where(s, p), f)
  {
    if s != [] {
      var init := s[..|s| - 1];
      WhereEach(init, f, p, q);
      assert Each(s, f)[..|s| - 1] == Each(init, f);
    }
  }

  lemma {:induction false} WhereAnd<T>(s: seq<T>, p: T -> bool, q: T -> bool, both: T -> bool)
    requires forall x | x in s :: both(x) == (p(x) && q(x))
    ensures Where(Where(s, p), q) == Where(s, both)
  {
    if s != [] {
      var init, x := s[..|s| - 1], s[|s| - 1];
      WhereAnd(init, p, q, both);
      WhereConcat(Where(init, p), [x], q);
      assert [x][..0] == [];
    }
  }
}
