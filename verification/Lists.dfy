/** Facts about sequences that the solver is slow to find in a larger proof. */
module Lists {

  lemma Associates<T>(a: seq<T>, b: seq<T>, c: seq<T>)
    ensures (a + b) + c == a + (b + c)
  {
  }

  lemma TakeNext<T>(s: seq<T>, i: nat)
    requires i < |s|
    ensures s[..i + 1] == s[..i] + [s[i]]
  {
  }

  lemma TakeAll<T>(s: seq<T>)
    ensures s[..|s|] == s && s[|s|..] == [] && s[0..] == s && s[..0] == []
  {
  }

  lemma DropNext<T>(s: seq<T>, i: nat)
    requires i < |s|
    ensures s[i..] == [s[i]] + s[i + 1..]
  {
  }

  lemma Split<T>(s: seq<T>, i: nat)
    requires i <= |s|
    ensures s == s[..i] + s[i..]
  {
  }

  lemma InitLast<T>(s: seq<T>, x: T)
    ensures (s + [x])[..|s|] == s && (s + [x])[|s|] == x
  {
  }

  lemma BagOfLast<T>(s: seq<T>)
    requires s != []
    ensures multiset(s) == multiset(s[..|s| - 1]) + multiset{s[|s| - 1]}
  {
    assert s == s[..|s| - 1] + [s[|s| - 1]];
  }

  lemma UpdateLeft<T>(a: seq<T>, b: seq<T>, j: nat, x: T)
    requires j < |a|
    ensures (a + b)[j := x] == a[j := x] + b
  {
  }

  lemma UpdateLast<T>(a: seq<T>, y: T, x: T)
    ensures (a + [y])[|a| := x] == a + [x]
  {
  }

  lemma TailAppend<T>(s: seq<T>, x: T)
    requires s != []
    ensures (s + [x])[0] == s[0] && (s + [x])[1..] == s[1..] + [x]
  {
  }

  lemma SliceNext<T>(s: seq<T>, from: nat, i: nat)
    requires from <= i < |s|
    ensures s[from..i + 1] == s[from..i] + [s[i]]
  {
  }

  // The multiset sum of the first n parts.
  ghost function SumTo<T>(parts: seq<multiset<T>>, n: nat): multiset<T>
    requires n <= |parts|
  {
    if n == 0 then multiset{} else SumTo(parts, n - 1) + parts[n - 1]
  }

  ghost function Total<T>(parts: seq<multiset<T>>): multiset<T> {
    SumTo(parts, |parts|)
  }

  lemma Sums<T>(a: multiset<T>, b: multiset<T>, c: multiset<T>)
    ensures (a + b) + c == a + (b + c) && a + multiset{} == a && multiset{} + a == a
  {
  }

  lemma SumNext<T>(start: multiset<T>, parts: seq<multiset<T>>, i: nat)
    requires i < |parts|
    ensures start + SumTo(parts, i + 1) == (start + SumTo(parts, i)) + parts[i]
  {
    Sums(start, SumTo(parts, i), parts[i]);
  }

  lemma {:induction false} SumBefore<T>(a: seq<multiset<T>>, b: seq<multiset<T>>, n: nat)
    requires n <= |a|
    ensures SumTo(a + b, n) == SumTo(a, n)
  {
    if n > 0 {
      SumBefore(a, b, n - 1);
    }
  }

  lemma {:induction false} SumPast<T>(a: seq<multiset<T>>, b: seq<multiset<T>>, n: nat)
    requires n <= |b|
    ensures SumTo(a + b, |a| + n) == Total(a) + SumTo(b, n)
  {
    if n == 0 {
      SumBefore(a, b, |a|);
      Sums(Total(a), multiset{}, multiset{});
    } else {
      SumPast(a, b, n - 1);
      assert (a + b)[|a| + n - 1] == b[n - 1];
      Sums(Total(a), SumTo(b, n - 1), b[n - 1]);
    }
  }

  lemma TotalConcat<T>(a: seq<multiset<T>>, b: seq<multiset<T>>)
    ensures Total(a + b) == Total(a) + Total(b)
  {
    SumPast(a, b, |b|);
  }

  lemma TotalCons<T>(part: multiset<T>, rest: seq<multiset<T>>)
    ensures Total([part] + rest) == part + Total(rest)
  {
    TotalConcat([part], rest);
    TotalOne(part);
  }

  lemma TotalOne<T>(part: multiset<T>)
    ensures Total([part]) == part
  {
    Sums(part, part, part);
    assert SumTo([part], 1) == SumTo([part], 0) + part;
  }

  lemma TotalAround<T>(parts: seq<multiset<T>>, i: nat)
    requires i < |parts|
    ensures Total(parts) == Total(parts[..i]) + (parts[i] + Total(parts[i + 1..]))
  {
    assert parts == parts[..i] + ([parts[i]] + parts[i + 1..]);
    TotalConcat(parts[..i], [parts[i]] + parts[i + 1..]);
    TotalCons(parts[i], parts[i + 1..]);
  }

  lemma {:induction false} NothingSums<T>(parts: seq<multiset<T>>, n: nat)
    requires n <= |parts| && forall i :: 0 <= i < n ==> parts[i] == multiset{}
    ensures SumTo(parts, n) == multiset{}
  {
    if n > 0 {
      NothingSums(parts, n - 1);
    }
  }
}
