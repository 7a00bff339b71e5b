/** Sequences of keys: duplicate-freedom, order-preserving removal and prefixes.
    The eviction list of the memory tier is such a sequence. */
module Seqs {

  predicate NoDup(s: seq<string>) {
    forall i, j :: 0 <= i < j < |s| ==> s[i] != s[j]
  }

  function Elems(s: seq<string>): set<string> {
    set x | x in s
  }

  function Last(s: seq<string>): string
    requires s != []
  {
    s[|s| - 1]
  }

  /** `s` with every member of `ks` removed, the rest in their original order. */
  function Except(s: seq<string>, ks: set<string>): (r: seq<string>)
    ensures forall x {:trigger x in r} :: x in r <==> x in s && x !in ks
    ensures |r| <= |s|
  {
    if s == [] then []
    else (if s[0] in ks then [] else [s[0]]) + Except(s[1..], ks)
  }

  /** The first `n` elements of `s` (all of `s` when it is shorter). */
  function Take(s: seq<string>, n: int): (r: seq<string>)
    ensures |r| == if n <= 0 then 0 else if n < |s| then n else |s|
    ensures forall i :: 0 <= i < |r| ==> r[i] == s[i]
  {
    if n <= 0 then [] else if n < |s| then s[..n] else s
  }

  lemma {:induction false} ExceptConcat(a: seq<string>, b: seq<string>, ks: set<string>)
    ensures Except(a + b, ks) == Except(a, ks) + Except(b, ks)
  {
    if a == [] {
      assert a + b == b;
    } else {
      var head := if a[0] in ks then [] else [a[0]];
      assert (a + b)[0] == a[0];
      assert (a + b)[1..] == a[1..] + b;
      ExceptConcat(a[1..], b, ks);
      calc {
        Except(a + b, ks);
        head + Except(a[1..] + b, ks);
        head + (Except(a[1..], ks) + Except(b, ks));
        (head + Except(a[1..], ks)) + Except(b, ks);
      }
    }
  }

  lemma {:induction false} ExceptTwice(s: seq<string>, xs: set<string>, ys: set<string>)
    ensures Except(Except(s, xs), ys) == Except(s, xs + ys)
  {
    if s != [] {
      ExceptTwice(s[1..], xs, ys);
      var head := if s[0] in xs then [] else [s[0]];
      ExceptConcat(head, Except(s[1..], xs), ys);
      if s[0] !in xs {
        assert Except(head, ys) == (if s[0] in ys then [] else [s[0]]) by {
          assert head[1..] == [];
        }
      }
    }
  }

  /** Removing keys that do not occur leaves the sequence as it is. */
  lemma {:induction false} ExceptDisjoint(s: seq<string>, ks: set<string>)
    requires forall x :: x in s ==> x !in ks
    ensures Except(s, ks) == s
  {
    if s != [] {
      ExceptDisjoint(s[1..], ks);
      assert s == [s[0]] + s[1..];
    }
  }

  /** Removing every key that occurs leaves nothing. */
  lemma {:induction false} ExceptCovered(s: seq<string>, ks: set<string>)
    requires forall x :: x in s ==> x in ks
    ensures Except(s, ks) == []
  {
    if s != [] {
      ExceptCovered(s[1..], ks);
    }
  }

  lemma {:induction false} ExceptNoDup(s: seq<string>, ks: set<string>)
    requires NoDup(s)
    ensures NoDup(Except(s, ks))
  {
    if s != [] {
      ExceptNoDup(s[1..], ks);
      assert s[0] !in s[1..] by {
        forall i | 0 <= i < |s[1..]| ensures s[1..][i] != s[0] {
          assert s[1..][i] == s[i + 1];
        }
      }
      assert s[0] !in Except(s[1..], ks);
    }
  }

  lemma NoDupConcat(a: seq<string>, b: seq<string>)
    requires NoDup(a) && NoDup(b)
    requires forall x :: x in a ==> x !in b
    ensures NoDup(a + b)
  {
    forall i, j | 0 <= i < j < |a + b| ensures (a + b)[i] != (a + b)[j] {
      if j < |a| {
      } else if i >= |a| {
        assert (a + b)[i] == b[i - |a|] && (a + b)[j] == b[j - |a|];
      } else {
        assert (a + b)[i] in a && (a + b)[j] in b;
      }
    }
  }

  /** Removing the key at position `p` of a duplicate-free sequence cuts out
      exactly that position: the other keys keep their relative order. */
  lemma {:induction false} ExceptAt(s: seq<string>, p: nat)
    requires NoDup(s) && p < |s|
    ensures Except(s, {s[p]}) == s[..p] + s[p + 1..]
  {
    var k := s[p];
    if p == 0 {
      forall x | x in s[1..] ensures x !in {k} {
        var i :| 0 <= i < |s[1..]| && s[1..][i] == x;
        assert s[i + 1] == x;
      }
      ExceptDisjoint(s[1..], {k});
    } else {
      var t := s[1..];
      assert NoDup(t);
      assert t[p - 1] == k;
      ExceptAt(t, p - 1);
      assert s[0] != k;
      calc {
        Except(s, {k});
        [s[0]] + Except(t, {k});
        [s[0]] + (t[..p - 1] + t[p..]);
        { assert [s[0]] + t[..p - 1] == s[..p]; assert t[p..] == s[p + 1..]; }
        s[..p] + s[p + 1..];
      }
    }
  }

  /** Removing one key of a duplicate-free sequence shortens it by one. */
  lemma ExceptOneLength(s: seq<string>, k: string)
    requires NoDup(s) && k in s
    ensures |Except(s, {k})| == |s| - 1
  {
    var p :| 0 <= p < |s| && s[p] == k;
    ExceptAt(s, p);
  }

  lemma {:induction false} NoDupCard(s: seq<string>)
    requires NoDup(s)
    ensures |Elems(s)| == |s|
  {
    if s != [] {
      var t := s[..|s| - 1];
      assert NoDup(t);
      NoDupCard(t);
      assert s == t + [Last(s)];
      assert Elems(s) == Elems(t) + {Last(s)};
      assert Last(s) !in Elems(t) by {
        forall i | 0 <= i < |t| ensures t[i] != Last(s) {
          assert t[i] == s[i];
        }
      }
    }
  }

  lemma TakeConcat(a: seq<string>, b: seq<string>, n: int)
    requires n <= |a|
    ensures Take(a + b, n) == Take(a, n)
  {
  }

  /** Cutting `m + rest` to `n`, removing the members of `ks` and putting `m`
      back in front gives the same cut again, when `m` holds only members of
      `ks` and `rest` none. */
  lemma TakeExceptFixpoint(m: seq<string>, rest: seq<string>, ks: set<string>, n: int)
    requires forall x :: x in m ==> x in ks
    requires forall x :: x in rest ==> x !in ks
    ensures Take(m + Except(Take(m + rest, n), ks), n) == Take(m + rest, n)
  {
    var t := Take(m + rest, n);
    if n <= |m| {
      TakeConcat(m, rest, n);
      forall x | x in t ensures x in ks {
        var i :| 0 <= i < |t| && t[i] == x;
        assert m[i] == x;
      }
      ExceptCovered(t, ks);
      assert m + [] == m;
    } else {
      var tail := Take(rest, n - |m|);
      assert t == m + tail;
      ExceptConcat(m, tail, ks);
      ExceptCovered(m, ks);
      forall x | x in tail ensures x !in ks {
        var i :| 0 <= i < |tail| && tail[i] == x;
        assert rest[i] == x;
      }
      ExceptDisjoint(tail, ks);
      assert Except(t, ks) == tail;
    }
  }
}
