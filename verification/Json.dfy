/** JSON values, and policies that say what of a value may be shown. */
module Json {
  import opened Wrappers

  /** An object's keys have no order here. */
  datatype Json =
    | Null
    | Bool(b: bool)
    | Number(r: real)
    | Text(s: string)
    | Array(items: seq<Json>)
    | Object(fields: map<string, Json>)

  const EMPTY := Object(map[])

  /** What becomes of a value: it is kept, dropped, or replaced by an empty object; or, when it has
      the expected kind, its fields, all its entries or all its items have policies of their own.
      A value of another kind is kept. */
  datatype Policy =
    | Keep
    | Drop
    | Blank
    | Fields(named: map<string, Policy>, others: Policy)
    | Record(entry: Policy)
    | List(item: Policy)

  function FieldPolicy(p: Policy, name: string): (r: Policy)
    requires p.Fields?
    ensures r < p
  {
    if name in p.named then p.named[name] else p.others
  }

  function Apply(p: Policy, j: Json): Json
    decreases p
  {
    match p
    case Keep => j
    case Drop => j
    case Blank => EMPTY
    case Fields(_, _) =>
      if !j.Object? then j
      else Object(map k | k in j.fields && !FieldPolicy(p, k).Drop? ::
                    Apply(FieldPolicy(p, k), j.fields[k]))
    case Record(entry) =>
      if !j.Object? then j else Object(map k | k in j.fields :: Apply(entry, j.fields[k]))
    case List(item) =>
      if !j.Array? then j else Array(seq(|j.items|, i requires 0 <= i < |j.items| => Apply(item, j.items[i])))
  }

  /** Two values that differ only where the policy removes. */
  predicate Agree(p: Policy, a: Json, b: Json)
    decreases p
  {
    match p
    case Keep => a == b
    case Drop => a == b
    case Blank => true
    case Fields(_, _) =>
      if !a.Object? || !b.Object? then a == b
      else
        && (forall k | k in a.fields && !FieldPolicy(p, k).Drop? :: k in b.fields)
        && (forall k | k in b.fields && !FieldPolicy(p, k).Drop? :: k in a.fields)
        && forall k | k in a.fields && !FieldPolicy(p, k).Drop? ::
             k in b.fields && Agree(FieldPolicy(p, k), a.fields[k], b.fields[k])
    case Record(entry) =>
      if !a.Object? || !b.Object? then a == b
      else
        && a.fields.Keys == b.fields.Keys
        && forall k | k in a.fields :: k in b.fields && Agree(entry, a.fields[k], b.fields[k])
    case List(item) =>
      if !a.Array? || !b.Array? then a == b
      else |a.items| == |b.items| && forall i | 0 <= i < |a.items| :: Agree(item, a.items[i], b.items[i])
  }

  // ---------------------------------------------------------------- what a policy guarantees

  /** Applying a policy again changes nothing. */
  lemma {:induction false} ApplyTwice(p: Policy, j: Json)
    ensures Apply(p, Apply(p, j)) == Apply(p, j)
    decreases p
  {
    match p
    case Fields(_, _) =>
      if j.Object? {
        forall k | k in j.fields && !FieldPolicy(p, k).Drop?
          ensures Apply(FieldPolicy(p, k), Apply(FieldPolicy(p, k), j.fields[k]))
                  == Apply(FieldPolicy(p, k), j.fields[k])
        {
          ApplyTwice(FieldPolicy(p, k), j.fields[k]);
        }
        assert Apply(p, Apply(p, j)).fields == Apply(p, j).fields;
      }
    case Record(entry) =>
      if j.Object? {
        forall k | k in j.fields ensures Apply(entry, Apply(entry, j.fields[k])) == Apply(entry, j.fields[k]) {
          ApplyTwice(entry, j.fields[k]);
        }
        assert Apply(p, Apply(p, j)).fields == Apply(p, j).fields;
      }
    case List(item) =>
      if j.Array? {
        forall i | 0 <= i < |j.items| ensures Apply(item, Apply(item, j.items[i])) == Apply(item, j.items[i]) {
          ApplyTwice(item, j.items[i]);
        }
        assert Apply(p, Apply(p, j)).items == Apply(p, j).items;
      }
    case _ =>
  }

  lemma {:induction false} EqualFields(p: Policy, a: Json, b: Json)
    requires p.Fields? && a.Object? && b.Object?
    ensures Agree(p, a, b) <==> Apply(p, a) == Apply(p, b)
    decreases p, 0
  {
    var x, y := Apply(p, a).fields, Apply(p, b).fields;
    assert forall k :: k in x.Keys <==> k in a.fields && !FieldPolicy(p, k).Drop?;
    assert forall k :: k in y.Keys <==> k in b.fields && !FieldPolicy(p, k).Drop?;
    forall k | k in x && k in y
      ensures Agree(FieldPolicy(p, k), a.fields[k], b.fields[k]) <==> x[k] == y[k]
    {
      EqualOutputs(FieldPolicy(p, k), a.fields[k], b.fields[k]);
    }
    assert x == y <==> x.Keys == y.Keys && forall k | k in x :: k in y && x[k] == y[k];
  }

  lemma {:induction false} EqualEntries(p: Policy, a: Json, b: Json)
    requires p.Record? && a.Object? && b.Object?
    ensures Agree(p, a, b) <==> Apply(p, a) == Apply(p, b)
    decreases p, 0
  {
    var x, y := Apply(p, a).fields, Apply(p, b).fields;
    assert x.Keys == a.fields.Keys && y.Keys == b.fields.Keys;
    forall k | k in x && k in y ensures Agree(p.entry, a.fields[k], b.fields[k]) <==> x[k] == y[k] {
      EqualOutputs(p.entry, a.fields[k], b.fields[k]);
    }
    assert x == y <==> x.Keys == y.Keys && forall k | k in x :: k in y && x[k] == y[k];
  }

  lemma {:induction false} EqualItems(p: Policy, a: Json, b: Json)
    requires p.List? && a.Array? && b.Array?
    ensures Agree(p, a, b) <==> Apply(p, a) == Apply(p, b)
    decreases p, 0
  {
    var x, y := Apply(p, a).items, Apply(p, b).items;
    forall i | 0 <= i < |x| && i < |y| ensures Agree(p.item, a.items[i], b.items[i]) <==> x[i] == y[i] {
      EqualOutputs(p.item, a.items[i], b.items[i]);
    }
    assert x == y <==> |x| == |y| && forall i | 0 <= i < |x| :: x[i] == y[i];
  }

  /** The output shows exactly what the policy keeps: two values give equal outputs if and only if
      they differ only in what is removed. */
  lemma {:induction false} EqualOutputs(p: Policy, a: Json, b: Json)
    ensures Agree(p, a, b) <==> Apply(p, a) == Apply(p, b)
    decreases p, 1
  {
    if p.Fields? && a.Object? && b.Object? {
      EqualFields(p, a, b);
    } else if p.Record? && a.Object? && b.Object? {
      EqualEntries(p, a, b);
    } else if p.List? && a.Array? && b.Array? {
      EqualItems(p, a, b);
    }
  }

  // ---------------------------------------------------------------- by paths

  datatype Step = Name(name: string) | Index(i: nat)

  /** The value at a path of names and indices. */
  function At(j: Json, path: seq<Step>): Option<Json>
    decreases |path|
  {
    if path == [] then Some(j)
    else
      match path[0]
      case Name(n) => if j.Object? && n in j.fields then At(j.fields[n], path[1..]) else None
      case Index(i) => if j.Array? && i < |j.items| then At(j.items[i], path[1..]) else None
  }

  /** The policy a path leads to, and what of the path is left when it keeps, drops or blanks. */
  function Reach(p: Policy, path: seq<Step>): (r: (Policy, seq<Step>))
    decreases |path|
  {
    if path == [] || p.Keep? || p.Drop? || p.Blank? then (p, path)
    else
      match (p, path[0])
      case (Fields(_, _), Name(n)) => Reach(FieldPolicy(p, n), path[1..])
      case (Record(entry), Name(_)) => Reach(entry, path[1..])
      case (List(item), Index(_)) => Reach(item, path[1..])
      case _ => (Keep, path)
  }

  /** What is found at a path afterwards: the old value where the policy keeps, nothing where it
      drops, an empty object where it blanks, and in between the old value under the policy reached. */
  predicate Shown(r: (Policy, seq<Step>), was: Option<Json>, shown: Option<Json>) {
    match r.0
    case Keep => shown == was
    case Drop => shown == None
    case Blank => if r.1 == [] then shown == (if was.None? then None else Some(EMPTY)) else shown == None
    case _ => shown == if was.None? then None else Some(Apply(r.0, was.value))
  }

  /** Only a field can be dropped. */
  predicate Sensible(p: Policy)
    decreases p
  {
    match p
    case Fields(named, others) =>
      (others.Drop? || Sensible(others)) && forall k | k in named :: named[k].Drop? || Sensible(named[k])
    case Record(entry) => !entry.Drop? && Sensible(entry)
    case List(item) => !item.Drop? && Sensible(item)
    case _ => true
  }

  /** Every path of the value, before and after. */
  lemma {:induction false} PathOutcome(p: Policy, j: Json, path: seq<Step>)
    requires !p.Drop? && Sensible(p)
    ensures Shown(Reach(p, path), At(j, path), At(Apply(p, j), path))
    decreases |path|
  {
    if path == [] {
    } else {
      match (p, path[0])
      case (Fields(_, _), Name(n)) =>
        if FieldPolicy(p, n).Drop? {
          assert Reach(FieldPolicy(p, n), path[1..]) == (Drop, path[1..]);
        } else if j.Object? && n in j.fields {
          PathOutcome(FieldPolicy(p, n), j.fields[n], path[1..]);
        }
      case (Record(entry), Name(n)) =>
        if j.Object? && n in j.fields {
          PathOutcome(entry, j.fields[n], path[1..]);
        }
      case (List(item), Index(i)) =>
        if j.Array? && i < |j.items| {
          PathOutcome(item, j.items[i], path[1..]);
        }
      case _ =>
    }
  }

  /** A path at which this policy leaves nothing. */
  predicate Hidden(p: Policy, path: seq<Step>) {
    var r := Reach(p, path);
    r.0.Drop? || (r.0.Blank? && r.1 != [])
  }

  /** A value that has something at this path. */
  function Along(path: seq<Step>): (j: Json)
    ensures At(j, path).Some?
  {
    if path == [] then Null
    else
      match path[0]
      case Name(n) => Object(map[n := Along(path[1..])])
      case Index(i) => Array(seq(i, _ => Null) + [Along(path[1..])])
  }

  /** Nothing is left at a path, whatever the value, if and only if the path is hidden. */
  lemma GoneExactly(p: Policy, path: seq<Step>)
    requires !p.Drop? && Sensible(p)
    ensures (forall j :: At(Apply(p, j), path).None?) <==> Hidden(p, path)
  {
    hide At, Apply, Reach, Sensible;
    if Hidden(p, path) {
      forall j ensures At(Apply(p, j), path).None? {
        PathOutcome(p, j, path);
      }
    } else {
      var j := Along(path);
      PathOutcome(p, j, path);
      assert At(Apply(p, j), path).Some?;
    }
  }
}
