/** The chronological sort: `[...blog].sort((a, b) => dateOf(b) - dateOf(a))`,
    where `Array.prototype.sort` is stable (ECMAScript 2019 onwards). */
module DateSort {
  import opened Posts

  /** The comparator handed to `sort`: negative places `a` before `b`,
      positive places `b` before `a`, zero keeps their input order. */
  function Compare(a: Post, b: Post): (r: int)
    ensures r <= 0 <==> a.data.date >= b.data.date
  {
    b.data.date - a.data.date
  }

  /** Newest first: no post is followed by a strictly newer one. */
  predicate Descending(s: seq<Post>)
  {
    forall i, j :: 0 <= i < j < |s| ==> s[i].data.date >= s[j].data.date
  }

  /** Newest first is what the comparator asks for: it never puts a post
      after its right-hand neighbour. */
  lemma {:induction false} DescendingByComparator(r: seq<Post>)
    ensures Descending(r) <==> forall i :: 0 <= i < |r| - 1 ==> Compare(r[i], r[i + 1]) <= 0
  {
    if forall i :: 0 <= i < |r| - 1 ==> Compare(r[i], r[i + 1]) <= 0 {
      forall i, j | 0 <= i < j < |r| ensures r[i].data.date >= r[j].data.date {
        NeighboursChain(r, i, j);
      }
    }
  }

  /** Dates that never increase between neighbours never increase along the sequence. */
  lemma {:induction false} NeighboursChain(r: seq<Post>, i: nat, j: nat)
    requires i <= j < |r|
    requires forall k :: 0 <= k < |r| - 1 ==> Compare(r[k], r[k + 1]) <= 0
    ensures r[i].data.date >= r[j].data.date
  {
    if i < j {
      NeighboursChain(r, i, j - 1);
      assert Compare(r[j - 1], r[j]) <= 0;
    }
  }

  /** The posts of `s` carrying timestamp `t`, in the order `s` has them.
      A sort is stable when it leaves this subsequence unchanged for every `t`. */
  function WithDate(s: seq<Post>, t: int): seq<Post>
  {
    if s == [] then []
    else (if s[0].data.date == t then [s[0]] else []) + WithDate(s[1..], t)
  }

  /** Inserts `p` into the newest-first sequence `s` in front of the first
      post the comparator does not order before `p`. */
  function Insert(p: Post, s: seq<Post>): (r: seq<Post>)
    ensures multiset(r) == multiset(s) + multiset{p}
  {
    if s == [] || Compare(p, s[0]) <= 0 then [p] + s
    else
      assert s == [s[0]] + s[1..];
      [s[0]] + Insert(p, s[1..])
  }

  /** Insertion keeps a newest-first sequence newest first. */
  lemma {:induction false} InsertKeepsDescending(p: Post, s: seq<Post>)
    requires Descending(s)
    ensures Descending(Insert(p, s))
  {
    if s == [] || Compare(p, s[0]) <= 0 {
      DescendingCons(p, s);
    } else {
      var rest := Insert(p, s[1..]);
      InsertKeepsDescending(p, s[1..]);
      assert forall k :: 0 <= k < |rest| ==> rest[k] in multiset(s[1..]) + multiset{p};
      DescendingCons(s[0], rest);
    }
  }

  /** WithDate looks at a sequence one post at a time, from the front. */
  lemma WithDateCons(x: Post, s: seq<Post>, t: int)
    ensures WithDate([x] + s, t) == (if x.data.date == t then [x] else []) + WithDate(s, t)
  {
    assert ([x] + s)[1..] == s;
  }

  /** A post no older than every post of a newest-first sequence can lead it. */
  lemma DescendingCons(p: Post, s: seq<Post>)
    requires Descending(s)
    requires forall k :: 0 <= k < |s| ==> s[k].data.date <= p.data.date
    ensures Descending([p] + s)
  {
  }

  /** Insertion sort of `s` with the comparator: the first post is inserted
      into the sorted remainder ahead of every post with the same date, which
      is what keeps equal dates in input order. */
  function SortByDate(s: seq<Post>): (r: seq<Post>)
    ensures multiset(r) == multiset(s)
    ensures |r| == |s|
    ensures Descending(r)
  {
    if s == [] then []
    else
      assert s == [s[0]] + s[1..];
      InsertKeepsDescending(s[0], SortByDate(s[1..]));
      Insert(s[0], SortByDate(s[1..]))
  }

  /** Inserting `p` adds it in front of the posts that share its date. */
  lemma {:induction false} InsertWithDate(p: Post, s: seq<Post>, t: int)
    ensures WithDate(Insert(p, s), t) == (if p.data.date == t then [p] else []) + WithDate(s, t)
  {
    if s == [] || Compare(p, s[0]) <= 0 {
      WithDateCons(p, s, t);
    } else {
      var hp := if p.data.date == t then [p] else [];
      var hs := if s[0].data.date == t then [s[0]] else [];
      InsertWithDate(p, s[1..], t);
      WithDateCons(s[0], Insert(p, s[1..]), t);
      WithDateCons(s[0], s[1..], t);
      assert s == [s[0]] + s[1..];
      assert hs == [] || hp == [];
      assert hs + (hp + WithDate(s[1..], t)) == hp + (hs + WithDate(s[1..], t));
    }
  }

  /** The sort is stable: for every date, the posts carrying it appear in
      the same relative order as in the input. */
  lemma {:induction false} SortIsStable(s: seq<Post>, t: int)
    ensures WithDate(SortByDate(s), t) == WithDate(s, t)
  {
    if s != [] {
      SortIsStable(s[1..], t);
      InsertWithDate(s[0], SortByDate(s[1..]), t);
    }
  }

  /** The sort result is the only sequence that is a newest-first, stable
      permutation of the input: any stable sort with this comparator, whatever
      algorithm the engine uses, returns exactly SortByDate. */
  lemma StableSortIsUnique(s: seq<Post>, r: seq<Post>)
    requires multiset(r) == multiset(s)
    requires Descending(r)
    requires forall t :: WithDate(r, t) == WithDate(s, t)
    ensures r == SortByDate(s)
  {
    forall t ensures WithDate(SortByDate(s), t) == WithDate(s, t) {
      SortIsStable(s, t);
    }
    SortedStableEqual(r, SortByDate(s));
  }

  /** Two newest-first permutations of each other that agree on every
      per-date subsequence are equal. */
  lemma {:induction false} SortedStableEqual(a: seq<Post>, b: seq<Post>)
    requires multiset(a) == multiset(b)
    requires Descending(a) && Descending(b)
    requires forall t :: WithDate(a, t) == WithDate(b, t)
    ensures a == b
  {
    if a == [] {
      assert |b| == |multiset(b)| == 0;
    } else {
      HeadDatesAgree(a, b);
      HeadsAgree(a, b);
      forall t ensures WithDate(a[1..], t) == WithDate(b[1..], t) {
        TailsAgree(a, b, t);
      }
      MultisetTailsAgree(a, b);
      SortedStableEqual(a[1..], b[1..]);
    }
  }

  /** Permutations of each other with the same first post have permuted tails. */
  lemma MultisetTailsAgree(a: seq<Post>, b: seq<Post>)
    requires a != [] && b != [] && a[0] == b[0]
    requires multiset(a) == multiset(b)
    ensures multiset(a[1..]) == multiset(b[1..])
  {
    assert a == [a[0]] + a[1..] && b == [b[0]] + b[1..];
    assert multiset(a[1..]) == multiset(a) - multiset{a[0]};
    assert multiset(b[1..]) == multiset(b) - multiset{a[0]};
  }

  /** Newest-first permutations of each other start with the same date. */
  lemma HeadDatesAgree(a: seq<Post>, b: seq<Post>)
    requires a != [] && multiset(a) == multiset(b)
    requires Descending(a) && Descending(b)
    ensures b != [] && a[0].data.date == b[0].data.date
  {
    assert |b| == |multiset(b)| == |a|;
    assert a[0] in multiset(b) && b[0] in multiset(a);
  }

  /** Two sequences whose first posts share a date and that list the same
      posts for that date start with the same post. */
  lemma HeadsAgree(a: seq<Post>, b: seq<Post>)
    requires a != [] && b != [] && a[0].data.date == b[0].data.date
    requires WithDate(a, a[0].data.date) == WithDate(b, a[0].data.date)
    ensures a[0] == b[0]
  {
    var d := a[0].data.date;
    assert WithDate(a, d)[0] == a[0];
    assert WithDate(b, d)[0] == b[0];
  }

  /** Dropping a common first post keeps the per-date subsequences equal. */
  lemma TailsAgree(a: seq<Post>, b: seq<Post>, t: int)
    requires a != [] && b != [] && a[0] == b[0]
    requires WithDate(a, t) == WithDate(b, t)
    ensures WithDate(a[1..], t) == WithDate(b[1..], t)
  {
    var h := if a[0].data.date == t then [a[0]] else [];
    assert h + WithDate(a[1..], t) == h + WithDate(b[1..], t);
    assert (h + WithDate(a[1..], t))[|h|..] == WithDate(a[1..], t);
    assert (h + WithDate(b[1..], t))[|h|..] == WithDate(b[1..], t);
  }
}
