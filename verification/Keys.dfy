/**
The printed cache key: kind:namespace/name:gen<generation>:field. A key can be
read back to what it was printed from, so printing loses nothing; and it starts
with an object's prefix exactly when it belongs to that object.
*/
module Keys {
  import opened Prelude

  datatype Object = Object(kind: string, namespace: string, name: string)

  datatype Field = Field(obj: Object, generation: int, field: string)

  function Prefix(o: Object): string {
    o.kind + ":" + o.namespace + "/" + o.name + ":"
  }

  function Key(f: Field): string {
    Prefix(f.obj) + "gen" + Decimal(f.generation) + ":" + f.field
  }

  /** Kinds and names contain no colon, namespaces no slash. */
  predicate Legal(o: Object) {
    ':' !in o.kind && '/' !in o.namespace && ':' !in o.name
  }

  // ---------------------------------------------------------------------------
  // Decimal rendering
  // ---------------------------------------------------------------------------

  function Digit(d: nat): char
    requires d < 10
  {
    '0' + d as char
  }

  function Digits(n: nat): string {
    if n < 10 then [Digit(n)] else Digits(n / 10) + [Digit(n % 10)]
  }

  function Decimal(n: int): string {
    if n < 0 then "-" + Digits(-n) else Digits(n)
  }

  function Undigits(s: string): int {
    if s == [] then 0 else 10 * Undigits(s[..|s| - 1]) + (s[|s| - 1] as int - '0' as int)
  }

  function Undecimal(s: string): int {
    if s != [] && s[0] == '-' then -Undigits(s[1..]) else Undigits(s)
  }

  lemma {:induction false} DigitsReadBack(n: nat)
    ensures Undigits(Digits(n)) == n
    ensures Digits(n) != []
    ensures forall i :: 0 <= i < |Digits(n)| ==> '0' <= Digits(n)[i] <= '9'
  {
    if n < 10 {
      assert Digits(n)[..0] == [];
    } else {
      DigitsReadBack(n / 10);
      assert Digits(n)[..|Digits(n)| - 1] == Digits(n / 10);
    }
  }

  lemma DecimalReadsBack(n: int)
    ensures Undecimal(Decimal(n)) == n
    ensures ':' !in Decimal(n)
  {
    DigitsReadBack(if n < 0 then -n else n);
    if n < 0 {
      assert Decimal(n)[1..] == Digits(-n);
    }
  }

  // ---------------------------------------------------------------------------
  // Reading keys back
  // ---------------------------------------------------------------------------

  /** The parts of s before and after the first occurrence of c. */
  function Cut(s: string, c: char): (r: Option<(string, string)>)
    ensures r.Some? ==> |r.value.1| < |s|
  {
    if s == [] then None
    else if s[0] == c then Some(([], s[1..]))
    else match Cut(s[1..], c)
      case None => None
      case Some((before, after)) => Some(([s[0]] + before, after))
  }

  lemma {:induction false} CutAtFirst(before: string, c: char, after: string)
    requires c !in before
    ensures Cut(before + [c] + after, c) == Some((before, after))
  {
    var s := before + [c] + after;
    if before == [] {
      assert s[1..] == after;
    } else {
      CutAtFirst(before[1..], c, after);
      assert s[0] == before[0] != c;
      assert [before[0]] + before[1..] == before;
      assert s[1..] == before[1..] + [c] + after;
    }
  }

  /** Reads an object's prefix off the front of a key. */
  function ReadObject(s: string): Option<(Object, string)> {
    match Cut(s, ':')
    case None => None
    case Some((kind, s1)) =>
      match Cut(s1, '/')
      case None => None
      case Some((namespace, s2)) =>
        match Cut(s2, ':')
        case None => None
        case Some((name, s3)) => Some((Object(kind, namespace, name), s3))
  }

  function ReadKey(s: string): Option<Field> {
    match ReadObject(s)
    case None => None
    case Some((o, rest)) =>
      if |rest| < 3 then None
      else match Cut(rest[3..], ':')
        case None => None
        case Some((generation, field)) => Some(Field(o, Undecimal(generation), field))
  }

  lemma ObjectReadsBack(o: Object, rest: string)
    requires Legal(o)
    ensures ReadObject(Prefix(o) + rest) == Some((o, rest))
  {
    var s3 := rest;
    var s2 := o.name + ":" + s3;
    var s1 := o.namespace + "/" + s2;
    CutAtFirst(o.kind, ':', s1);
    CutAtFirst(o.namespace, '/', s2);
    CutAtFirst(o.name, ':', s3);
    Regroup(o.kind, o.namespace, o.name, rest);
  }

  lemma Regroup(a: string, b: string, c: string, d: string)
    ensures a + ":" + b + "/" + c + ":" + d == a + ":" + (b + "/" + (c + ":" + d))
  {
    assert a + ":" + b + "/" + c + ":" + d == (a + ":" + b + "/") + (c + ":" + d);
  }

  /** Round trip: a legal key reads back to the field it names. */
  lemma KeyReadsBack(f: Field)
    requires Legal(f.obj)
    ensures ReadKey(Key(f)) == Some(f)
  {
    var rest := "gen" + Decimal(f.generation) + ":" + f.field;
    assert Key(f) == Prefix(f.obj) + rest;
    ObjectReadsBack(f.obj, rest);
    DecimalReadsBack(f.generation);
    CutAtFirst(Decimal(f.generation), ':', f.field);
    assert rest[3..] == Decimal(f.generation) + ":" + f.field;
  }

  /** So the key is injective in kind, namespace, name, generation and field. */
  lemma KeyInjective(f: Field, g: Field)
    requires Legal(f.obj) && Legal(g.obj)
    ensures Key(f) == Key(g) <==> f == g
  {
    KeyReadsBack(f);
    KeyReadsBack(g);
  }

  /** And a key starts with an object's prefix exactly when it is that object's. */
  lemma PrefixExact(o: Object, f: Field)
    requires Legal(o) && Legal(f.obj)
    ensures Prefix(o) <= Key(f) <==> f.obj == o
  {
    var rest := "gen" + Decimal(f.generation) + ":" + f.field;
    assert Key(f) == Prefix(f.obj) + rest;
    ObjectReadsBack(f.obj, rest);
    if Prefix(o) <= Key(f) {
      var tail := Key(f)[|Prefix(o)|..];
      assert Key(f) == Prefix(o) + tail;
      ObjectReadsBack(o, tail);
    }
  }

  /** None of the three conditions can be dropped: with a colon in its kind or a
      slash in its namespace every field shares its key with another one. */
  lemma IllegalKindOrNamespaceCollides(f: Field)
    requires ':' in f.obj.kind || '/' in f.obj.namespace
    ensures exists g: Field :: g != f && Key(g) == Key(f)
  {
    var o := f.obj;
    if ':' in o.kind {
      var i :| 0 <= i < |o.kind| && o.kind[i] == ':';
      var front, back := o.kind[..i], o.kind[i + 1..];
      var other := Object(front, back + ":" + o.namespace, o.name);
      assert o.kind == front + ":" + back;
      assert front + ":" + (back + ":" + o.namespace) == o.kind + ":" + o.namespace;
      SamePrefixSameKey(f, f.(obj := other));
    } else {
      var i :| 0 <= i < |o.namespace| && o.namespace[i] == '/';
      var front, back := o.namespace[..i], o.namespace[i + 1..];
      var other := Object(o.kind, front, back + "/" + o.name);
      assert o.namespace == front + "/" + back;
      SlashMoves(o.kind + ":", front, back, o.name);
      SamePrefixSameKey(f, f.(obj := other));
    }
  }

  lemma SamePrefixSameKey(f: Field, g: Field)
    requires Prefix(f.obj) == Prefix(g.obj) && f.generation == g.generation && f.field == g.field
    ensures Key(f) == Key(g)
  {
  }

  lemma SlashMoves(kind: string, front: string, back: string, name: string)
    ensures kind + front + "/" + (back + "/" + name) + ":" == kind + (front + "/" + back) + "/" + name + ":"
  {
    assert kind + front + "/" + (back + "/" + name) == kind + (front + "/" + back) + "/" + name;
  }

  /** And a name that goes on with a generation in it spills over into the fields
      of the object with the shorter name. */
  lemma NameWithGenerationCollides(o: Object, m: int, x: string, n: int, field: string)
    ensures var longer := o.(name := o.name + ":gen" + Decimal(m) + ":" + x);
            Key(Field(longer, n, field)) == Key(Field(o, m, x + ":gen" + Decimal(n) + ":" + field))
  {
    var tail := ":gen" + Decimal(n) + ":" + field;
    var shorter, spilled := o.name + ":gen" + Decimal(m) + ":", o.name + ":gen" + Decimal(m) + ":" + x;
    KeyInThree(o.(name := spilled), n, field);
    KeyInThree(o, m, x + ":gen" + Decimal(n) + ":" + field);
    Reassociate(x, Decimal(n), field);
    Spill(o.kind + ":" + o.namespace + "/", shorter, x, tail);
  }

  /** For instance. */
  lemma KeyOfAWorker()
    ensures Key(Field(Object("build", "ci", "worker"), 42, "image")) == "build:ci/worker:gen42:image"
  {
    assert Digits(4) == ['4'] && Digits(42) == ['4'] + ['2'];
    assert Decimal(42) == "42";
    assert Prefix(Object("build", "ci", "worker")) == "build:ci/worker:";
  }

  lemma KeyInThree(o: Object, n: int, field: string)
    ensures Key(Field(o, n, field)) == (o.kind + ":" + o.namespace + "/") + o.name + (":gen" + Decimal(n) + ":" + field)
    ensures Key(Field(o, n, field)) == (o.kind + ":" + o.namespace + "/") + (o.name + ":gen" + Decimal(n) + ":") + field
  {
    assert ":" + "gen" == ":gen";
    Chain(o.kind + ":" + o.namespace + "/" + o.name, ":", "gen", Decimal(n), ":", field);
  }

  lemma Chain(a: string, b: string, c: string, d: string, e: string, f: string)
    ensures a + b + c + d + e + f == a + (b + c + d + e + f)
    ensures a + b + c + d + e + f == a + (b + c) + d + e + f
  {
  }

  lemma Reassociate(x: string, decimal: string, field: string)
    ensures x + ":gen" + decimal + ":" + field == x + (":gen" + decimal + ":" + field)
  {
  }

  lemma Spill(head: string, shorter: string, x: string, tail: string)
    ensures head + (shorter + x) + tail == head + shorter + (x + tail)
  {
  }
}
