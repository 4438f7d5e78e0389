/** The bounded window of recently processed uuids. */
module Dedup {
  const DEDUP_CAPACITY := 256

  function LastN<T>(s: seq<T>, n: nat): (w: seq<T>)
    ensures |w| == if |s| <= n then |s| else n
  {
    if |s| <= n then s else s[|s| - n..]
  }

  /** What a bounded window of remembered uuids lets through: the accepted uuids of a sequence
      of calls, each accepted iff it is not among the last 256 accepted before it. */
  function Accepted<T(==)>(calls: seq<T>): (acc: seq<T>)
    ensures |acc| <= |calls|
  {
    if calls == [] then []
    else
      var acc, uuid := Accepted(calls[..|calls| - 1]), calls[|calls| - 1];
      if uuid in LastN(acc, DEDUP_CAPACITY) then acc else acc + [uuid]
  }

  function Window<T(==)>(calls: seq<T>): seq<T> { LastN(Accepted(calls), DEDUP_CAPACITY) }

  ghost predicate Distinct<T>(s: seq<T>) {
    forall i, j | 0 <= i < j < |s| :: s[i] != s[j]
  }

  function Elements<T(==)>(s: seq<T>): set<T> { set u | u in s }

  lemma ElementsTail<T>(s: seq<T>)
    requires s != [] && Distinct(s)
    ensures Elements(s[1..]) == Elements(s) - {s[0]}
  {
    assert s == [s[0]] + s[1..];
    assert s[0] !in s[1..];
  }

  lemma {:induction false} DistinctSize<T>(s: seq<T>)
    requires Distinct(s)
    ensures |Elements(s)| == |s|
  {
    if s != [] {
      DistinctSize(s[1..]);
      ElementsTail(s);
    }
  }

  /** How the window moves when a new uuid is accepted. */
  lemma WindowAppend<T>(calls: seq<T>, uuid: T)
    requires uuid !in Window(calls)
    ensures var w := Window(calls);
      Window(calls + [uuid]) == (if |w| >= 256 then w[1..] else w) + [uuid]
  {
  }

  /** Any two acceptances of one uuid are more than 256 acceptances apart. */
  lemma {:induction false} Spacing<T>(calls: seq<T>, i: nat, j: nat)
    requires i < j < |Accepted(calls)| && Accepted(calls)[i] == Accepted(calls)[j]
    ensures j - i > 256
  {
    var acc := Accepted(calls[..|calls| - 1]);
    if j < |acc| {
      Spacing(calls[..|calls| - 1], i, j);
    }
  }

  lemma WindowDistinct<T>(calls: seq<T>)
    ensures Distinct(Window(calls))
  {
    var acc, w := Accepted(calls), Window(calls);
    forall i, j | 0 <= i < j < |w| ensures w[i] != w[j] {
      if w[i] == w[j] { Spacing(calls, |acc| - |w| + i, |acc| - |w| + j); }
    }
  }

  /** The set of the window has exactly its size. */
  lemma WindowSize<T>(calls: seq<T>)
    ensures |Window(calls)| <= 256 && Distinct(Window(calls))
    ensures |Elements(Window(calls))| == |Window(calls)|
  {
    WindowDistinct(calls);
    DistinctSize(Window(calls));
  }

  /** After any call the uuid is remembered, so an immediate redelivery is refused. */
  lemma Remembered<T>(calls: seq<T>, uuid: T)
    ensures uuid in Window(calls + [uuid])
    ensures Accepted(calls + [uuid] + [uuid]) == Accepted(calls + [uuid])
  {
    if uuid !in Window(calls) {
      WindowAppend(calls, uuid);
    }
  }

  class DedupQueue<T(==)> {
    var seen: set<T>
    var order: seq<T>
    ghost var calls: seq<T>

    ghost predicate Valid()
      reads this
    {
      order == Window(calls) && seen == Elements(order)
    }

    constructor ()
      ensures Valid() && calls == []
    {
      seen, order, calls := {}, [], [];
    }

    /** Records a uuid; `false` says it is a duplicate. */
    method Record(uuid: T) returns (isNew: bool)
      requires Valid()
      modifies this
      ensures Valid() && calls == old(calls) + [uuid]
      ensures isNew <==> uuid !in old(order)
      ensures Accepted(calls) == if isNew then Accepted(old(calls)) + [uuid] else Accepted(old(calls))
      ensures |order| <= 256 && |seen| == |order| && Distinct(order)
    {
      WindowSize(calls);
      isNew := Insert(uuid);
      if isNew { WindowAppend(calls, uuid); }
      WindowSize(calls + [uuid]);
      calls := calls + [uuid];
    }

    method Insert(uuid: T) returns (isNew: bool)
      requires seen == Elements(order) && |seen| == |order| && Distinct(order)
      modifies this`seen, this`order
      ensures isNew <==> uuid !in old(order)
      ensures seen == Elements(order)
      ensures order == if !isNew then old(order)
                       else (if |old(order)| >= DEDUP_CAPACITY then old(order)[1..] else old(order)) + [uuid]
    {
      if uuid in seen {
        return false;
      }
      if |seen| >= DEDUP_CAPACITY {
        if order != [] {
          seen := seen - {order[0]};
          order := order[1..];
        }
      }
      seen := seen + {uuid};
      order := order + [uuid];
      isNew := true;
    }
  }
}
