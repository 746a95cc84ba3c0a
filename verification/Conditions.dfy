/** Condition lists: the two upserts by type, lookup, and what a list built by
    any sequence of writes looks like. */
module Conditions {
  import opened Prelude

  datatype Status = True | False | Unknown

  datatype Condition = Condition(
    ctype: string, status: Status, reason: string, message: string,
    observedGeneration: int, transitioned: int)

  /** One call of SetCondition; at is the clock it read. */
  datatype Write = Write(ctype: string, status: Status, reason: string, message: string, at: int)

  /** The position of the first condition of type t, or the length of the list. */
  function IndexOf(conds: seq<Condition>, t: string): (i: nat)
    ensures i <= |conds|
    ensures i < |conds| ==> conds[i].ctype == t
    ensures forall j :: 0 <= j < i ==> conds[j].ctype != t
  {
    if conds == [] || conds[0].ctype == t then 0 else 1 + IndexOf(conds[1..], t)
  }

  function Lookup(conds: seq<Condition>, t: string): Option<Condition> {
    if IndexOf(conds, t) < |conds| then Some(conds[IndexOf(conds, t)]) else None
  }

  function Types(conds: seq<Condition>): seq<string> {
    seq(|conds|, i requires 0 <= i < |conds| => conds[i].ctype)
  }

  lemma IndexIsFirst(conds: seq<Condition>, t: string, i: nat)
    requires i <= |conds| && (i < |conds| ==> conds[i].ctype == t)
    requires forall j :: 0 <= j < i ==> conds[j].ctype != t
    ensures IndexOf(conds, t) == i
  {
  }

  // ---------------------------------------------------------------------------
  // SetCondition: updates four fields in place, or appends
  // ---------------------------------------------------------------------------

  function Upsert(conds: seq<Condition>, w: Write): seq<Condition> {
    var i := IndexOf(conds, w.ctype);
    if i < |conds|
    then conds[i := conds[i].(status := w.status, reason := w.reason, message := w.message, transitioned := w.at)]
    else conds + [Condition(w.ctype, w.status, w.reason, w.message, 0, w.at)]
  }

  function Replay(writes: seq<Write>): seq<Condition> {
    if writes == [] then [] else Upsert(Replay(writes[..|writes| - 1]), writes[|writes| - 1])
  }

  /** The types written, in order of first appearance. */
  function FirstAppearances(writes: seq<Write>): seq<string> {
    if writes == [] then []
    else
      var before := FirstAppearances(writes[..|writes| - 1]);
      var t := writes[|writes| - 1].ctype;
      if t in before then before else before + [t]
  }

  function LastWrite(writes: seq<Write>, t: string): Option<Write> {
    if writes == [] then None
    else if writes[|writes| - 1].ctype == t then Some(writes[|writes| - 1])
    else LastWrite(writes[..|writes| - 1], t)
  }

  lemma UpsertLookup(conds: seq<Condition>, w: Write, t: string)
    ensures t != w.ctype ==> Lookup(Upsert(conds, w), t) == Lookup(conds, t)
    ensures var r := Lookup(Upsert(conds, w), w.ctype);
            r.Some? && r.value.ctype == w.ctype && r.value.status == w.status && r.value.reason == w.reason
            && r.value.message == w.message && r.value.transitioned == w.at
  {
    var r := Upsert(conds, w);
    var i := IndexOf(conds, w.ctype);
    IndexIsFirst(r, w.ctype, i);
    if t != w.ctype {
      var k := IndexOf(conds, t);
      if k < |conds| {
        IndexIsFirst(r, t, k);
      } else {
        IndexIsFirst(r, t, |r|);
      }
    }
  }

  lemma {:induction false} FirstAppearancesDistinct(writes: seq<Write>)
    ensures Distinct(FirstAppearances(writes))
  {
    if writes != [] {
      FirstAppearancesDistinct(writes[..|writes| - 1]);
    }
  }

  /** After any sequence of writes the list has one entry per type written, in
      order of first appearance. */
  lemma {:induction false} ReplayKeepsFirstAppearanceOrder(writes: seq<Write>)
    ensures Types(Replay(writes)) == FirstAppearances(writes)
    ensures Distinct(Types(Replay(writes)))
  {
    FirstAppearancesDistinct(writes);
    if writes != [] {
      var before, w := writes[..|writes| - 1], writes[|writes| - 1];
      ReplayKeepsFirstAppearanceOrder(before);
      var conds := Replay(before);
      var i := IndexOf(conds, w.ctype);
      if i < |conds| {
        assert Types(conds)[i] == w.ctype;
        assert Types(Upsert(conds, w)) == Types(conds);
      } else {
        forall j | 0 <= j < |conds| ensures Types(conds)[j] != w.ctype { }
        assert Types(Upsert(conds, w)) == Types(conds) + [w.ctype];
      }
    }
  }

  /** And the entry of each type carries the last write of that type. */
  lemma {:induction false} ReplayHoldsLastWrites(writes: seq<Write>, t: string)
    ensures match LastWrite(writes, t)
            case None => Lookup(Replay(writes), t) == None
            case Some(w) =>
              Lookup(Replay(writes), t) == Some(Condition(t, w.status, w.reason, w.message, 0, w.at))
  {
    if writes != [] {
      var before, w := writes[..|writes| - 1], writes[|writes| - 1];
      UpsertLookup(Replay(before), w, t);
      ReplayHoldsLastWrites(before, t);
      if w.ctype == t {
        GenerationStaysUnset(before, t);
      }
    }
  }

  lemma {:induction false} GenerationStaysUnset(writes: seq<Write>, t: string)
    ensures var i := IndexOf(Replay(writes), t);
            i < |Replay(writes)| ==> Replay(writes)[i].observedGeneration == 0
    ensures forall j :: 0 <= j < |Replay(writes)| ==> Replay(writes)[j].observedGeneration == 0
  {
    if writes != [] {
      GenerationStaysUnset(writes[..|writes| - 1], t);
    }
  }

  class ConditionList {
    var items: seq<Condition>

    method SetCondition(ctype: string, status: Status, reason: string, message: string, now: int)
      modifies this
      ensures items == Upsert(old(items), Write(ctype, status, reason, message, now))
      ensures (forall i :: 0 <= i < |old(items)| ==> old(items)[i].ctype != ctype) ==>
                items == old(items) + [Condition(ctype, status, reason, message, 0, now)]
      ensures forall i :: 0 <= i < |old(items)| && old(items)[i].ctype == ctype && (forall j :: 0 <= j < i ==> old(items)[j].ctype != ctype) ==>
                items == old(items)[i := Condition(ctype, status, reason, message, old(items)[i].observedGeneration, now)]
    {
      for i := 0 to |items|
        invariant items == old(items)
        invariant forall j :: 0 <= j < i ==> items[j].ctype != ctype
      {
        if items[i].ctype == ctype {
          IndexIsFirst(items, ctype, i);
          items := items[i := items[i].(status := status)];
          items := items[i := items[i].(reason := reason)];
          items := items[i := items[i].(message := message)];
          items := items[i := items[i].(transitioned := now)];
          return;
        }
      }
      IndexIsFirst(items, ctype, |items|);
      items := items + [Condition(ctype, status, reason, message, 0, now)];
    }
  }

  /** The pointer GetCondition returns, as a position in the slice. */
  method GetCondition(conds: seq<Condition>, ctype: string) returns (r: Option<nat>)
    ensures r.Some? ==> r.value < |conds| && Lookup(conds, ctype) == Some(conds[r.value])
    ensures r.Some? ==> forall j :: 0 <= j < r.value ==> conds[j].ctype != ctype
    ensures r.None? <==> Lookup(conds, ctype) == None
  {
    for i := 0 to |conds|
      invariant forall j :: 0 <= j < i ==> conds[j].ctype != ctype
    {
      if conds[i].ctype == ctype {
        IndexIsFirst(conds, ctype, i);
        return Some(i);
      }
    }
    IndexIsFirst(conds, ctype, |conds|);
    return None;
  }

  method HasCondition(conds: seq<Condition>, ctype: string, status: Status) returns (found: bool)
    ensures found <==> exists i :: 0 <= i < |conds| && conds[i].ctype == ctype && conds[i].status == status
  {
    for i := 0 to |conds|
      invariant forall j :: 0 <= j < i ==> !(conds[j].ctype == ctype && conds[j].status == status)
    {
      if conds[i].ctype == ctype && conds[i].status == status {
        return true;
      }
    }
    return false;
  }

  /** On a list the writers built, both lookups agree with the map of last writes. */
  lemma LookupsAgreeWithLastWrites(writes: seq<Write>, t: string, status: Status)
    ensures (exists i :: 0 <= i < |Replay(writes)| && Replay(writes)[i].ctype == t && Replay(writes)[i].status == status)
            <==> (LastWrite(writes, t).Some? && LastWrite(writes, t).value.status == status)
    ensures Lookup(Replay(writes), t).Some? <==> LastWrite(writes, t).Some?
  {
    var conds := Replay(writes);
    ReplayKeepsFirstAppearanceOrder(writes);
    ReplayHoldsLastWrites(writes, t);
    forall i | 0 <= i < |conds| && conds[i].ctype == t ensures i == IndexOf(conds, t) {
      var k := IndexOf(conds, t);
      assert k <= i;
      assert Types(conds)[i] == t && Types(conds)[k] == t;
    }
  }

  // ---------------------------------------------------------------------------
  // mergeCondition: replaces the whole entry, or appends
  // ---------------------------------------------------------------------------

  function Merge(conds: seq<Condition>, c: Condition): seq<Condition> {
    var i := IndexOf(conds, c.ctype);
    if i < |conds| then conds[i := c] else conds + [c]
  }

  function MergeAll(conds: seq<Condition>, cs: seq<Condition>): seq<Condition>
    decreases |cs|
  {
    if cs == [] then conds else MergeAll(Merge(conds, cs[0]), cs[1..])
  }

  /** The last condition of type t in a list of writes. */
  function LastOf(cs: seq<Condition>, t: string): Option<Condition> {
    if cs == [] then None
    else if cs[|cs| - 1].ctype == t then Some(cs[|cs| - 1])
    else LastOf(cs[..|cs| - 1], t)
  }

  method MergeCondition(conds: seq<Condition>, c: Condition) returns (r: seq<Condition>)
    ensures r == Merge(conds, c)
    ensures (forall i :: 0 <= i < |conds| ==> conds[i].ctype != c.ctype) ==> r == conds + [c]
    ensures forall i :: 0 <= i < |conds| && conds[i].ctype == c.ctype && (forall j :: 0 <= j < i ==> conds[j].ctype != c.ctype) ==> r == conds[i := c]
  {
    for i := 0 to |conds|
      invariant forall j :: 0 <= j < i ==> conds[j].ctype != c.ctype
    {
      if conds[i].ctype == c.ctype {
        IndexIsFirst(conds, c.ctype, i);
        return conds[i := c];
      }
    }
    IndexIsFirst(conds, c.ctype, |conds|);
    return conds + [c];
  }

  lemma MergeLookup(conds: seq<Condition>, c: Condition, t: string)
    ensures Lookup(Merge(conds, c), t) == if t == c.ctype then Some(c) else Lookup(conds, t)
  {
    var r := Merge(conds, c);
    if t == c.ctype {
      IndexIsFirst(r, t, IndexOf(conds, t));
    } else if IndexOf(conds, t) < |conds| {
      IndexIsFirst(r, t, IndexOf(conds, t));
    } else {
      IndexIsFirst(r, t, |r|);
    }
  }

  lemma {:induction false} MergeAllConcat(conds: seq<Condition>, xs: seq<Condition>, ys: seq<Condition>)
    ensures MergeAll(conds, xs + ys) == MergeAll(MergeAll(conds, xs), ys)
    decreases |xs|
  {
    if xs == [] {
      assert xs + ys == ys;
    } else {
      var zs := xs + ys;
      assert zs[0] == xs[0] && zs[1..] == xs[1..] + ys;
      MergeAllConcat(Merge(conds, xs[0]), xs[1..], ys);
    }
  }

  /** Merging a list leaves, for every type, its last occurrence in the list, and
      what was stored for the types the list does not name. */
  lemma {:induction false} MergeAllLookup(conds: seq<Condition>, cs: seq<Condition>, t: string)
    ensures Lookup(MergeAll(conds, cs), t) == match LastOf(cs, t) case Some(c) => Some(c) case None => Lookup(conds, t)
    decreases |cs|
  {
    if cs != [] {
      var front, last := cs[..|cs| - 1], cs[|cs| - 1];
      MergeAllConcat(conds, front, [last]);
      assert front + [last] == cs;
      assert MergeAll(MergeAll(conds, front), [last]) == Merge(MergeAll(conds, front), last);
      MergeLookup(MergeAll(conds, front), last, t);
      MergeAllLookup(conds, front, t);
    }
  }

  /** Two writers that name different types: in either order both are there, and
      every type reads the same. */
  lemma DisjointWritersCommute(conds: seq<Condition>, xs: seq<Condition>, ys: seq<Condition>, t: string)
    requires forall i, j :: 0 <= i < |xs| && 0 <= j < |ys| ==> xs[i].ctype != ys[j].ctype
    ensures Lookup(MergeAll(MergeAll(conds, xs), ys), t) == Lookup(MergeAll(MergeAll(conds, ys), xs), t)
    ensures LastOf(xs, t).Some? ==> Lookup(MergeAll(MergeAll(conds, xs), ys), t) == LastOf(xs, t)
    ensures LastOf(ys, t).Some? ==> Lookup(MergeAll(MergeAll(conds, xs), ys), t) == LastOf(ys, t)
  {
    MergeAllLookup(conds, xs, t);
    MergeAllLookup(conds, ys, t);
    MergeAllLookup(MergeAll(conds, xs), ys, t);
    MergeAllLookup(MergeAll(conds, ys), xs, t);
    LastOfIsListed(xs, t);
    LastOfIsListed(ys, t);
  }

  lemma {:induction false} LastOfIsListed(cs: seq<Condition>, t: string)
    ensures LastOf(cs, t).Some? ==> LastOf(cs, t).value in cs && LastOf(cs, t).value.ctype == t
    ensures LastOf(cs, t).None? ==> forall i :: 0 <= i < |cs| ==> cs[i].ctype != t
  {
    if cs != [] {
      LastOfIsListed(cs[..|cs| - 1], t);
      if LastOf(cs, t).None? {
        forall i | 0 <= i < |cs| ensures cs[i].ctype != t {
          if i < |cs| - 1 { assert cs[i] == cs[..|cs| - 1][i]; }
        }
      }
    }
  }
}
