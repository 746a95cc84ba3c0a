/**
ObjectCaches of many kinds over one flat store with string keys, and the
in-memory store itself. Seen through the printed keys the store is one map from
(kind, namespace, name, generation, field) to values.
*/
module ObjectCaches {
  import opened Prelude
  import opened Keys

  /** What json.Marshal made of a value. */
  type Bytes = string

  function WithoutPrefix<V>(data: map<string, V>, prefix: string): map<string, V> {
    map k | k in data && !(prefix <= k) :: data[k]
  }

  // ---------------------------------------------------------------------------
  // Any number of caches, any interleaving, any backend
  // ---------------------------------------------------------------------------

  /** NonEnumerating stands for a backend whose DelPrefix does nothing. */
  datatype Backend = Enumerating | NonEnumerating | Noop

  /** Expire is the environment: an entry's time to live has passed. */
  datatype Op = SetField(f: Field, v: Bytes) | Invalidate(o: Object) | Expire(f: Field)

  predicate LegalOp(op: Op) {
    match op
    case SetField(f, _) => Legal(f.obj)
    case Invalidate(o) => Legal(o)
    case Expire(f) => Legal(f.obj)
  }

  function StoreStep(b: Backend, data: map<string, Bytes>, op: Op): map<string, Bytes> {
    match op
    case SetField(f, v) => if b.Noop? then data else data[Key(f) := v]
    case Invalidate(o) => if b.Enumerating? then WithoutPrefix(data, Prefix(o)) else data
    case Expire(f) => data - {Key(f)}
  }

  function StoreAfter(b: Backend, ops: seq<Op>): map<string, Bytes> {
    if ops == [] then map[] else StoreStep(b, StoreAfter(b, ops[..|ops| - 1]), ops[|ops| - 1])
  }

  /** The abstract map. It knows nothing of strings. */
  function FieldsAfter(b: Backend, ops: seq<Op>): map<Field, Bytes> {
    if ops == [] then map[]
    else
      var m := FieldsAfter(b, ops[..|ops| - 1]);
      match ops[|ops| - 1]
      case SetField(f, v) => if b.Noop? then m else m[f := v]
      case Invalidate(o) => if b.Enumerating? then map f | f in m && f.obj != o :: m[f] else m
      case Expire(f) => m - {f}
  }

  /** After any interleaving of writes, invalidations and expiries by caches of
      any kinds, a read finds in the flat store what the abstract map holds. */
  lemma {:induction false} StoreIsOneMapOfFields(b: Backend, ops: seq<Op>, f: Field)
    requires Legal(f.obj) && forall i :: 0 <= i < |ops| ==> LegalOp(ops[i])
    ensures Entry(StoreAfter(b, ops), Key(f)) == Entry(FieldsAfter(b, ops), f)
  {
    if ops != [] {
      StoreIsOneMapOfFields(b, ops[..|ops| - 1], f);
      match ops[|ops| - 1]
      case SetField(g, _) => KeyInjective(f, g);
      case Invalidate(o) => PrefixExact(o, f);
      case Expire(g) => KeyInjective(f, g);
    }
  }

  function LastSet(ops: seq<Op>, f: Field): Option<Bytes> {
    if ops == [] then None
    else match ops[|ops| - 1]
      case SetField(g, v) => if g == f then Some(v) else LastSet(ops[..|ops| - 1], f)
      case _ => LastSet(ops[..|ops| - 1], f)
  }

  lemma {:induction false} NoopHoldsNothing(ops: seq<Op>)
    ensures StoreAfter(Noop, ops) == map[]
  {
    if ops != [] {
      NoopHoldsNothing(ops[..|ops| - 1]);
    }
  }

  /** On every backend a hit is the value last written for that very object,
      generation and field: never one written at another generation. */
  lemma {:induction false} HitIsLastWriteOfThatField(b: Backend, ops: seq<Op>, f: Field)
    requires Legal(f.obj) && forall i :: 0 <= i < |ops| ==> LegalOp(ops[i])
    requires Key(f) in StoreAfter(b, ops)
    ensures LastSet(ops, f) == Some(StoreAfter(b, ops)[Key(f)])
  {
    if b.Noop? {
      NoopHoldsNothing(ops);
    } else if ops != [] {
      var before := ops[..|ops| - 1];
      match ops[|ops| - 1] {
        case SetField(g, _) => KeyInjective(f, g);
        case _ =>
      }
      if Key(f) in StoreAfter(b, before) {
        HitIsLastWriteOfThatField(b, before, f);
      }
    }
  }

  /** What Invalidate hides: on a backend that cannot enumerate its keys a field
      stays readable, so an object deleted and created again, whose generations
      restart, reads its predecessor's fields. */
  lemma InvalidatedFieldIsGoneIffEnumerating(b: Backend, ops: seq<Op>, f: Field)
    requires Legal(f.obj) && forall i :: 0 <= i < |ops| ==> LegalOp(ops[i])
    ensures Entry(StoreAfter(b, ops + [Invalidate(f.obj)]), Key(f)) == None
            <==> (b.Enumerating? || Entry(StoreAfter(b, ops), Key(f)) == None)
  {
    var all := ops + [Invalidate(f.obj)];
    assert all[..|ops|] == ops;
    PrefixExact(f.obj, f);
  }

  /** Nothing else is lost: the entries of every other object stay as they are. */
  lemma InvalidateTouchesOneObject(b: Backend, ops: seq<Op>, o: Object, f: Field)
    requires Legal(f.obj) && Legal(o) && f.obj != o
    ensures Entry(StoreAfter(b, ops + [Invalidate(o)]), Key(f)) == Entry(StoreAfter(b, ops), Key(f))
  {
    assert (ops + [Invalidate(o)])[..|ops|] == ops;
    PrefixExact(o, f);
  }

  // ---------------------------------------------------------------------------
  // The in-memory store
  // ---------------------------------------------------------------------------

  class FakeExternalCache {
    var data: map<string, Bytes>
    var ttl: map<string, int>

    ghost predicate Valid()
      reads this
    {
      data.Keys == ttl.Keys
    }

    constructor ()
      ensures Valid() && data == map[] && ttl == map[]
    {
      data, ttl := map[], map[];
    }

    /** A value that cannot be marshalled is an error and changes nothing. */
    method Set(key: string, marshalled: Option<Bytes>, expiry: int) returns (ok: bool)
      requires Valid()
      modifies this
      ensures Valid() && ok == marshalled.Some?
      ensures ok ==> data == old(data)[key := marshalled.value] && ttl == old(ttl)[key := expiry]
      ensures !ok ==> data == old(data) && ttl == old(ttl)
    {
      if marshalled.None? {
        return false;
      }
      data := data[key := marshalled.value];
      ttl := ttl[key := expiry];
      return true;
    }

    /** A miss is Ok(None); a value that does not fit the target is an error. */
    method Get(key: string, fits: Bytes -> bool) returns (r: Result<Option<Bytes>, Bytes>)
      ensures r == match Entry(data, key)
                   case None => Ok(None)
                   case Some(v) => if fits(v) then Ok(Some(v)) else Err(v)
    {
      if key !in data {
        return Ok(None);
      }
      if !fits(data[key]) {
        return Err(data[key]);
      }
      return Ok(Some(data[key]));
    }

    method Del(key: string)
      requires Valid()
      modifies this
      ensures Valid() && data == old(data) - {key} && ttl == old(ttl) - {key}
    {
      data := data - {key};
      ttl := ttl - {key};
    }

    /** Deletes while it ranges over the keys, in whatever order they come. */
    method DelPrefix(prefix: string)
      requires Valid()
      modifies this
      ensures Valid()
      ensures data == WithoutPrefix(old(data), prefix) && ttl == WithoutPrefix(old(ttl), prefix)
    {
      var keys := data.Keys;
      while keys != {}
        invariant Valid() && keys <= old(data.Keys)
        invariant data == map k | k in old(data) && (k in keys || !(prefix <= k)) :: old(data)[k]
        invariant ttl == map k | k in old(ttl) && (k in keys || !(prefix <= k)) :: old(ttl)[k]
        decreases keys
      {
        var k :| k in keys;
        keys := keys - {k};
        if prefix <= k {
          data := data - {k};
          ttl := ttl - {k};
        }
      }
    }
  }

  const ONE_HOUR: int := 3_600_000_000_000

  class ObjectCache {
    const cache: FakeExternalCache
    const kind: string
    const ttl: int

    constructor (cache: FakeExternalCache, kind: string, ttl: int)
      ensures this.cache == cache && this.kind == kind && this.ttl == (if ttl <= 0 then 3_600_000_000_000 else ttl)
    {
      this.cache, this.kind := cache, kind;
      this.ttl := if ttl <= 0 then ONE_HOUR else ttl;
    }

    function FieldOf(namespace: string, name: string, generation: int, field: string): Field {
      Field(Object(kind, namespace, name), generation, field)
    }

    method SetField(namespace: string, name: string, generation: int, field: string, marshalled: Option<Bytes>) returns (ok: bool)
      requires cache.Valid()
      modifies cache
      ensures cache.Valid() && ok == marshalled.Some?
      ensures ok ==> cache.data == StoreStep(Enumerating, old(cache.data), Op.SetField(FieldOf(namespace, name, generation, field), marshalled.value))
      ensures ok ==> cache.ttl == old(cache.ttl)[Key(FieldOf(namespace, name, generation, field)) := ttl]
      ensures !ok ==> cache.data == old(cache.data) && cache.ttl == old(cache.ttl)
    {
      ok := cache.Set(Key(FieldOf(namespace, name, generation, field)), marshalled, ttl);
    }

    method GetField(namespace: string, name: string, generation: int, field: string, fits: Bytes -> bool)
      returns (r: Result<Option<Bytes>, Bytes>)
      ensures var hit := Entry(cache.data, Key(FieldOf(namespace, name, generation, field)));
              && (r == Ok(None) <==> hit.None?)
              && (forall v :: hit == Some(v) ==> r == if fits(v) then Ok(Some(v)) else Err(v))
    {
      r := cache.Get(Key(FieldOf(namespace, name, generation, field)), fits);
    }

    method Invalidate(namespace: string, name: string)
      requires cache.Valid()
      modifies cache
      ensures cache.Valid()
      ensures cache.data == StoreStep(Enumerating, old(cache.data), Op.Invalidate(Object(kind, namespace, name)))
      ensures cache.ttl == WithoutPrefix(old(cache.ttl), Prefix(Object(kind, namespace, name)))
    {
      cache.DelPrefix(Prefix(Object(kind, namespace, name)));
    }
  }
}
