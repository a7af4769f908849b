/**
 The slice of WordPress's action table that fixes the order in which the
 coordinator's callbacks run. For one action the table is a list of buckets,
 one per priority, kept in ascending priority order; a bucket holds its
 callbacks in the order they were added. Running the action walks the buckets
 in order and each bucket's callbacks in order.
 */
module Hooks {

  datatype Bucket<C> = Bucket(priority: int, callbacks: seq<C>)

  /** Buckets by action name. */
  type Table<C> = map<string, seq<Bucket<C>>>

  predicate Sorted<C>(bs: seq<Bucket<C>>) {
    forall i, j :: 0 <= i < j < |bs| ==> bs[i].priority < bs[j].priority
  }

  predicate WellFormed<C>(t: Table<C>) {
    forall tag :: tag in t ==> Sorted(t[tag])
  }

  /** The callbacks registered at priority `p`, in registration order. */
  function At<C>(bs: seq<Bucket<C>>, p: int): seq<C>
    decreases |bs|
  {
    if bs == [] then [] else if bs[0].priority == p then bs[0].callbacks else At(bs[1..], p)
  }

  /** Adding a callback at priority `p`: into the bucket of that priority, or a new bucket before the first higher one. */
  function Insert<C>(bs: seq<Bucket<C>>, cb: C, p: int): (r: seq<Bucket<C>>)
    ensures |bs| <= |r| <= |bs| + 1
    decreases |bs|
  {
    if bs == [] then [Bucket(p, [cb])]
    else if bs[0].priority == p then [Bucket(p, bs[0].callbacks + [cb])] + bs[1..]
    else if p < bs[0].priority then [Bucket(p, [cb])] + bs
    else [bs[0]] + Insert(bs[1..], cb, p)
  }

  /** Insertion keeps the buckets in ascending priority order. */
  lemma {:induction false} InsertSorted<C>(bs: seq<Bucket<C>>, cb: C, p: int)
    requires Sorted(bs)
    ensures Sorted(Insert(bs, cb, p))
    ensures Insert(bs, cb, p)[0].priority == if bs != [] && bs[0].priority < p then bs[0].priority else p
    decreases |bs|
  {
    if bs != [] && bs[0].priority < p {
      InsertSorted(bs[1..], cb, p);
    }
  }

  /**
   The added callback goes last among the callbacks of priority `p`, and
   every other priority keeps its callbacks.
   */
  lemma {:induction false} InsertAt<C>(bs: seq<Bucket<C>>, cb: C, p: int)
    requires Sorted(bs)
    ensures At(Insert(bs, cb, p), p) == At(bs, p) + [cb]
    ensures forall q :: q != p ==> At(Insert(bs, cb, p), q) == At(bs, q)
    decreases |bs|
  {
    if bs == [] {
    } else if bs[0].priority == p {
      ConsAt(Bucket(p, bs[0].callbacks + [cb]), bs[1..]);
    } else if p < bs[0].priority {
      SortedBucketsAvoid(bs, p);
      ConsAt(Bucket(p, [cb]), bs);
    } else {
      InsertAt(bs[1..], cb, p);
      ConsAt(bs[0], Insert(bs[1..], cb, p));
    }
  }

  lemma ConsAt<C>(b: Bucket<C>, bs: seq<Bucket<C>>)
    ensures forall q :: At([b] + bs, q) == if b.priority == q then b.callbacks else At(bs, q)
  {
    assert ([b] + bs)[1..] == bs;
  }

  /** A priority below every bucket's has no callbacks yet. */
  lemma {:induction false} SortedBucketsAvoid<C>(bs: seq<Bucket<C>>, p: int)
    requires forall i :: 0 <= i < |bs| ==> p < bs[i].priority
    ensures At(bs, p) == []
    decreases |bs|
  {
    if bs != [] {
      SortedBucketsAvoid(bs[1..], p);
    }
  }

  /** A priority above every existing one gets a new bucket at the end. */
  lemma {:induction false} InsertAfterLast<C>(bs: seq<Bucket<C>>, cb: C, p: int)
    requires Sorted(bs) && (bs != [] ==> bs[|bs| - 1].priority < p)
    ensures Insert(bs, cb, p) == bs + [Bucket(p, [cb])]
    decreases |bs|
  {
    if bs != [] {
      assert bs[0].priority < p by {
        if |bs| > 1 { assert bs[0].priority < bs[|bs| - 1].priority; }
      }
      InsertAfterLast(bs[1..], cb, p);
      assert [bs[0]] + (bs[1..] + [Bucket(p, [cb])]) == bs + [Bucket(p, [cb])];
    }
  }

  /** The highest priority, added to again, extends the last bucket. */
  lemma {:induction false} InsertIntoLast<C>(bs: seq<Bucket<C>>, cb: C, p: int)
    requires Sorted(bs) && bs != [] && bs[|bs| - 1].priority == p
    ensures Insert(bs, cb, p) == bs[..|bs| - 1] + [Bucket(p, bs[|bs| - 1].callbacks + [cb])]
    decreases |bs|
  {
    if |bs| > 1 {
      assert bs[0].priority < p;
      InsertIntoLast(bs[1..], cb, p);
      assert [bs[0]] + (bs[1..][..|bs| - 2] + [Bucket(p, bs[|bs| - 1].callbacks + [cb])])
        == bs[..|bs| - 1] + [Bucket(p, bs[|bs| - 1].callbacks + [cb])];
    } else {
      assert bs[1..] == [] && bs[..0] == [];
    }
  }

  /** `add_action( tag, callback, priority )`: only the action `tag` changes. */
  function AddAction<C>(t: Table<C>, tag: string, cb: C, p: int): (r: Table<C>)
    ensures r.Keys == t.Keys + {tag}
    ensures forall other :: other in t && other != tag ==> r[other] == t[other]
  {
    t[tag := Insert(if tag in t then t[tag] else [], cb, p)]
  }

  /** `add_action` keeps every action's buckets in ascending priority order. */
  lemma AddActionWellFormed<C>(t: Table<C>, tag: string, cb: C, p: int)
    requires WellFormed(t)
    ensures WellFormed(AddAction(t, tag, cb, p))
  {
    InsertSorted(if tag in t then t[tag] else [], cb, p);
  }

  /**
   After `add_action`, the callback runs last among the action's callbacks at
   its priority, and the action's other priorities are as they were.
   */
  lemma AddActionAt<C>(t: Table<C>, tag: string, cb: C, p: int)
    requires tag in t ==> Sorted(t[tag])
    ensures At(AddAction(t, tag, cb, p)[tag], p) == At(if tag in t then t[tag] else [], p) + [cb]
    ensures forall q :: q != p ==> At(AddAction(t, tag, cb, p)[tag], q) == At(if tag in t then t[tag] else [], q)
  {
    InsertAt(if tag in t then t[tag] else [], cb, p);
  }

  /** An action's first callback, or one at a priority above all its others, opens a new last bucket. */
  lemma AddActionAfterLast<C>(t: Table<C>, tag: string, cb: C, p: int)
    requires tag in t ==> Sorted(t[tag]) && (t[tag] != [] ==> t[tag][|t[tag]| - 1].priority < p)
    ensures AddAction(t, tag, cb, p)[tag] == (if tag in t then t[tag] else []) + [Bucket(p, [cb])]
  {
    InsertAfterLast(if tag in t then t[tag] else [], cb, p);
  }

  /** A callback at an action's highest priority joins the end of the last bucket. */
  lemma AddActionIntoLast<C>(t: Table<C>, tag: string, cb: C, p: int)
    requires tag in t && Sorted(t[tag]) && t[tag] != [] && t[tag][|t[tag]| - 1].priority == p
    ensures AddAction(t, tag, cb, p)[tag]
      == t[tag][..|t[tag]| - 1] + [Bucket(p, t[tag][|t[tag]| - 1].callbacks + [cb])]
  {
    InsertIntoLast(t[tag], cb, p);
  }

  /** `do_action( tag )`: every callback, bucket by bucket in priority order. */
  function Run<C>(bs: seq<Bucket<C>>): seq<C>
    decreases |bs|
  {
    if bs == [] then [] else bs[0].callbacks + Run(bs[1..])
  }

  /** The callbacks of priorities below `p`, in running order. */
  function RunBelow<C>(bs: seq<Bucket<C>>, p: int): seq<C>
    decreases |bs|
  {
    if bs == [] then []
    else (if bs[0].priority < p then bs[0].callbacks else []) + RunBelow(bs[1..], p)
  }

  /** The callbacks of priorities above `p`, in running order. */
  function RunAbove<C>(bs: seq<Bucket<C>>, p: int): seq<C>
    decreases |bs|
  {
    if bs == [] then []
    else (if bs[0].priority > p then bs[0].callbacks else []) + RunAbove(bs[1..], p)
  }

  /** Buckets all above `p` run nothing below or at `p`. */
  lemma {:induction false} AllAbove<C>(bs: seq<Bucket<C>>, p: int)
    requires forall i :: 0 <= i < |bs| ==> p < bs[i].priority
    ensures RunBelow(bs, p) == [] && At(bs, p) == [] && RunAbove(bs, p) == Run(bs)
    decreases |bs|
  {
    if bs != [] {
      AllAbove(bs[1..], p);
    }
  }

  lemma SortedTail<C>(bs: seq<Bucket<C>>)
    requires Sorted(bs) && bs != []
    ensures Sorted(bs[1..])
    ensures forall i :: 0 <= i < |bs| - 1 ==> bs[0].priority < bs[1..][i].priority
  {
    forall i | 0 <= i < |bs| - 1 ensures bs[0].priority < bs[1..][i].priority {
      assert bs[1..][i] == bs[i + 1];
    }
  }

  /** One bucket in front of the rest, split at `p`. */
  lemma ConsSplit<C>(b: Bucket<C>, rest: seq<Bucket<C>>, p: int)
    ensures Run([b] + rest) == b.callbacks + Run(rest)
    ensures RunBelow([b] + rest, p) == (if b.priority < p then b.callbacks else []) + RunBelow(rest, p)
    ensures RunAbove([b] + rest, p) == (if b.priority > p then b.callbacks else []) + RunAbove(rest, p)
    ensures At([b] + rest, p) == if b.priority == p then b.callbacks else At(rest, p)
  {
    assert ([b] + rest)[0] == b && ([b] + rest)[1..] == rest;
  }

  /**
   Running sorted buckets runs every callback below `p`, then the
   callbacks at `p`, then every callback above `p`.
   */
  lemma {:induction false} RunSplit<C>(bs: seq<Bucket<C>>, p: int)
    requires Sorted(bs)
    ensures Run(bs) == RunBelow(bs, p) + At(bs, p) + RunAbove(bs, p)
    decreases |bs|
  {
    if bs != [] {
      var b := bs[0];
      var rest := bs[1..];
      assert bs == [b] + rest;
      ConsSplit(b, rest, p);
      SortedTail(bs);
      if b.priority < p {
        RunSplit(rest, p);
        var x, y, z := RunBelow(rest, p), At(rest, p), RunAbove(rest, p);
        assert b.callbacks + (x + y + z) == (b.callbacks + x) + y + z;
      } else if b.priority == p {
        AllAbove(rest, p);
      } else {
        AllAbove(bs, p);
      }
    }
  }

  /** Above `p`, the callbacks at `p + 1` run first. */
  lemma {:induction false} AboveStep<C>(bs: seq<Bucket<C>>, p: int)
    requires Sorted(bs)
    ensures RunAbove(bs, p) == At(bs, p + 1) + RunAbove(bs, p + 1)
    decreases |bs|
  {
    if bs != [] {
      var b := bs[0];
      var rest := bs[1..];
      assert bs == [b] + rest;
      SortedTail(bs);
      if b.priority <= p {
        AboveStep(rest, p);
        ConsSplit(b, rest, p);
        ConsSplit(b, rest, p + 1);
      } else {
        AllAbove(bs, p);
        AboveFirst(bs, p + 1);
      }
    }
  }

  /** Sorted buckets starting at or above `p` run the callbacks at `p` first, then those above it. */
  lemma AboveFirst<C>(bs: seq<Bucket<C>>, p: int)
    requires Sorted(bs) && bs != [] && bs[0].priority >= p
    ensures Run(bs) == At(bs, p) + RunAbove(bs, p)
  {
    var b := bs[0];
    var rest := bs[1..];
    assert bs == [b] + rest;
    SortedTail(bs);
    ConsSplit(b, rest, p);
    if b.priority == p {
      AllAbove(rest, p);
    } else {
      AllAbove(bs, p);
    }
  }

  /**
   On sorted buckets the callbacks at `p` run immediately before those at
   `p + 1`: nothing runs between them.
   */
  lemma RunAdjacent<C>(bs: seq<Bucket<C>>, p: int)
    requires Sorted(bs)
    ensures Run(bs) == RunBelow(bs, p) + At(bs, p) + At(bs, p + 1) + RunAbove(bs, p + 1)
  {
    RunSplit(bs, p);
    AboveStep(bs, p);
  }

  /** Two buckets run the lower priority's callbacks first. */
  lemma RunTwoBuckets<C>(b0: Bucket<C>, b1: Bucket<C>)
    requires b0.priority < b1.priority
    ensures At([b0, b1], b0.priority) == b0.callbacks && At([b0, b1], b1.priority) == b1.callbacks
    ensures Run([b0, b1]) == b0.callbacks + b1.callbacks
  {
    assert [b0, b1][1..] == [b1] && [b1][1..] == [];
    assert Run([b1]) == b1.callbacks + Run([]);
    assert b1.callbacks + [] == b1.callbacks;
  }
}
