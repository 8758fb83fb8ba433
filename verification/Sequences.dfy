/** Sequences without repetition, and removal from them. */
module Sequences {

  ghost predicate NoDup<T>(r: seq<T>) {
    r == [] || (r[0] !in r[1..] && NoDup(r[1..]))
  }

  lemma {:induction false} NoDupAppend<T>(a: seq<T>, b: seq<T>)
    ensures NoDup(a + b) <==> NoDup(a) && NoDup(b) && forall x :: x in a ==> x !in b
  {
    if a == [] {
      assert a + b == b;
    } else {
      assert (a + b)[1..] == a[1..] + b;
      NoDupAppend(a[1..], b);
      assert forall x :: x in a <==> x == a[0] || x in a[1..];
    }
  }

  function Without<T(==)>(s: seq<T>, e: T): seq<T> {
    if s == [] then [] else (if s[0] == e then [] else [s[0]]) + Without(s[1..], e)
  }

  lemma {:induction false} WithoutAbsent<T>(s: seq<T>, e: T)
    requires e !in s
    ensures Without(s, e) == s
  {
    if s != [] { WithoutAbsent(s[1..], e); }
  }

  lemma {:induction false} WithoutPresent<T>(a: seq<T>, e: T, b: seq<T>)
    requires e !in a && e !in b
    ensures Without(a + ([e] + b), e) == a + b
  {
    if a == [] {
      assert a + ([e] + b) == [e] + b && ([e] + b)[1..] == b && a + b == b;
      WithoutAbsent(b, e);
    } else {
      assert (a + ([e] + b))[1..] == a[1..] + ([e] + b);
      WithoutPresent(a[1..], e, b);
      assert a + b == [a[0]] + (a[1..] + b);
    }
  }

  lemma {:induction false} WithoutIn<T>(s: seq<T>, e: T)
    ensures forall x :: x in Without(s, e) ==> x in s && x != e
    ensures forall x :: x in s && x != e ==> x in Without(s, e)
  {
    if s != [] { WithoutIn(s[1..], e); }
  }

  lemma {:induction false} SplitAt<T>(s: seq<T>, e: T) returns (a: seq<T>, b: seq<T>)
    requires e in s && NoDup(s)
    ensures s == a + ([e] + b) && a + b == Without(s, e)
    ensures (forall x :: x in a ==> x in s && x != e) && (forall x :: x in b ==> x in s && x != e)
  {
    if s[0] == e {
      a, b := [], s[1..];
      WithoutAbsent(b, e);
    } else {
      var a';
      a', b := SplitAt(s[1..], e);
      a := [s[0]] + a';
      assert a + b == [s[0]] + (a' + b);
      assert a + ([e] + b) == [s[0]] + (a' + ([e] + b));
    }
  }

  /** Those of `s` not in `victims`, in order. */
  function Keeping<T(==)>(s: seq<T>, victims: set<T>): seq<T> {
    if s == [] then [] else (if s[0] in victims then [] else [s[0]]) + Keeping(s[1..], victims)
  }

  lemma {:induction false} KeepingSnoc<T>(s: seq<T>, victims: set<T>, x: T)
    ensures Keeping(s + [x], victims) == Keeping(s, victims) + if x in victims then [] else [x]
  {
    if s != [] {
      assert (s + [x])[1..] == s[1..] + [x];
      KeepingSnoc(s[1..], victims, x);
    }
  }

  lemma {:induction false} KeepingIn<T>(s: seq<T>, victims: set<T>)
    ensures forall x :: x in Keeping(s, victims) ==> x in s && x !in victims
  {
    if s != [] { KeepingIn(s[1..], victims); }
  }

  lemma {:induction false} WithoutFirst<T>(q: seq<T>)
    requires q != [] && NoDup(q)
    ensures Without(q, q[0]) == q[1..]
  {
    WithoutAbsent(q[1..], q[0]);
  }

  lemma {:induction false} NoDupWithout<T>(s: seq<T>, e: T)
    requires NoDup(s)
    ensures NoDup(Without(s, e)) && e !in Without(s, e)
  {
    WithoutIn(s, e);
    if s != [] {
      NoDupWithout(s[1..], e);
      WithoutIn(s[1..], e);
      if s[0] == e {
        assert Without(s, e) == Without(s[1..], e);
      } else {
        assert Without(s, e)[1..] == Without(s[1..], e);
      }
    }
  }

  lemma {:induction false} NoDupSnoc<T>(s: seq<T>, e: T)
    requires NoDup(s) && e !in s
    ensures NoDup(s + [e])
  {
    NoDupAppend(s, [e]);
    assert [e][1..] == [];
  }

  lemma {:induction false} FirstIn<T>(s: seq<T>)
    ensures s != [] ==> s[0] in s
  {}

  ghost function Elements<T>(s: seq<T>): set<T> {
    set x | x in s
  }

  lemma {:induction false} WithoutAppend<T>(s: seq<T>, s': seq<T>, e: T)
    ensures Without(s + s', e) == Without(s, e) + Without(s', e)
  {
    if s == [] {
      assert s + s' == s';
    } else {
      assert (s + s')[1..] == s[1..] + s';
      WithoutAppend(s[1..], s', e);
    }
  }

  lemma {:induction false} KeepingWithout<T>(s: seq<T>, victims: set<T>, e: T)
    ensures Without(Keeping(s, victims), e) == Keeping(s, victims + {e})
  {
    if s != [] {
      KeepingWithout(s[1..], victims, e);
      WithoutAppend(if s[0] in victims then [] else [s[0]], Keeping(s[1..], victims), e);
    }
  }

  lemma {:induction false} KeepingAll<T>(s: seq<T>)
    ensures Keeping(s, {}) == s
  {
    if s != [] { KeepingAll(s[1..]); }
  }

  lemma {:induction false} ElementsCount<T>(s: seq<T>)
    requires NoDup(s)
    ensures |Elements(s)| == |s|
  {
    if s != [] {
      ElementsCount(s[1..]);
      assert Elements(s) == Elements(s[1..]) + {s[0]};
    }
  }
}
