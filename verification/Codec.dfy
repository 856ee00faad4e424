/**
 * The JSON codec driven by type annotations. JSON keeps integers and floats apart, as Python's
 * json does; an environment gives each dataclass its fields.
 */
module Codec {
  import opened Wrappers

  datatype Float = Finite(r: real) | NaN | Infinite(negative: bool)

  datatype Atom = Null | Bool(b: bool) | Int(n: int) | Float(f: Float) | Str(s: string)

  /** What ``Literal[...]`` may list. */
  type Literal = a: Atom | !a.Float? witness Null

  datatype Json = JAtom(a: Atom) | JArr(items: seq<Json>) | JObj(entries: OrderedMap<string, Json>)

  /** A mapping's key: only a string has a JSON form. */
  datatype Key = Text(s: string) | Opaque

  /** Python values; ``VOther`` is anything without a JSON form. */
  datatype Value =
    | VAtom(a: Atom)
    | VTuple(items: seq<Value>)
    | VList(items: seq<Value>)
    | VDict(entries: seq<(Key, Value)>)
    | VData(cls: string, fields: seq<(string, Value)>)
    | VOther

  datatype Ann =
    | TNull | TBool | TInt | TFloat | TStr | TJson
    | TLit(allowed: seq<Literal>)
    | TVar(item: Ann)
    | TFixed(args: seq<Ann>)
    | TDict(value: Ann)
    | TData(cls: string)
    | TUnion(arms: seq<Ann>)

  datatype Field = Field(name: string, ann: Ann, default: Option<Value>)

  type Env = string -> seq<Field>

  datatype Step = Attr(name: string) | Entry(key: string) | Index(i: nat)

  datatype Reason =
    | WrongShape | NotAnInteger | NonFinite | NotAllowed | NoJsonForm | KeyNotString
    | WrongLength(expected: nat, got: nat)
    | UnknownFields(names: set<string>)
    | MissingField(name: string)
    | NoArm(failures: seq<Reason>)

  datatype Error = Error(path: seq<Step>, reason: Reason)

  // ----- results

  function Under<T>(step: Step, r: Result<T, Error>): Result<T, Error> {
    match r
    case Ok(_) => r
    case Err(e) => Err(Error([step] + e.path, e.reason))
  }

  /** All the values, or the first error. */
  function Collect<T>(rs: seq<Result<T, Error>>): (r: Result<seq<T>, Error>)
    ensures r.Ok? ==> |r.value| == |rs|
  {
    if rs == [] then Ok([])
    else
      match rs[0]
      case Err(e) => Err(e)
      case Ok(x) => match Collect(rs[1..]) case Err(e) => Err(e) case Ok(xs) => Ok([x] + xs)
  }

  lemma {:induction false} Collected<T>(rs: seq<Result<T, Error>>)
    ensures Collect(rs).Ok? ==> |Collect(rs).value| == |rs| && forall i :: 0 <= i < |rs| ==> rs[i] == Ok(Collect(rs).value[i])
    ensures Collect(rs).Err? ==> exists i :: 0 <= i < |rs| && rs[i] == Err(Collect(rs).error)
  {
    if rs != [] {
      Collected(rs[1..]);
      if rs[0].Ok? && Collect(rs[1..]).Err? {
        var i :| 0 <= i < |rs[1..]| && rs[1..][i] == Err(Collect(rs[1..]).error);
        assert rs[i + 1] == Err(Collect(rs).error);
      }
      if Collect(rs).Ok? {
        forall i | 0 <= i < |rs|
          ensures rs[i] == Ok(Collect(rs).value[i])
        {
          if i > 0 {
            assert rs[1..][i - 1] == rs[i];
          }
        }
      }
    }
  }

  lemma CollectIs<T>(rs: seq<Result<T, Error>>, xs: seq<T>)
    requires |xs| == |rs|
    ensures Collect(rs) == Ok(xs) <==> forall i :: 0 <= i < |rs| ==> rs[i] == Ok(xs[i])
  {
    Collected(rs);
    if forall i :: 0 <= i < |rs| ==> rs[i] == Ok(xs[i]) {
      assert Collect(rs).Ok?;
      assert Collect(rs).value == xs;
    }
  }

  /** The first result that is not an error. */
  function FirstOk(rs: seq<Result<Value, Error>>): (r: Result<Value, Error>)
    ensures r.Err? ==> r.error.path == []
  {
    if k: nat :| k < |rs| && rs[k].Ok? && forall j :: 0 <= j < k ==> rs[j].Err? then rs[k]
    else Err(Error([], NoArm(seq(|rs|, i requires 0 <= i < |rs| => if rs[i].Err? then rs[i].error.reason else NoJsonForm))))
  }

  // ----- encoding

  predicate FiniteAtom(a: Atom) {
    a.Float? ==> a.f.Finite?
  }

  /** ``_encode``, the path being relative to the value. */
  function Encode(v: Value): Result<Json, Error>
    decreases v, 1
  {
    match v
    case VAtom(a) => if FiniteAtom(a) then Ok(JAtom(a)) else Err(Error([], NonFinite))
    case VOther => Err(Error([], NoJsonForm))
    case VData(_, fields) =>
      (match Collect(Encodings(v))
       case Err(e) => Err(e)
       case Ok(js) => Ok(JObj(Named(fields, js))))
    case VDict(entries) =>
      (match Collect(Encodings(v))
       case Err(e) => Err(e)
       case Ok(js) => Ok(JObj(Texts(entries, js))))
    case _ =>
      (match Collect(Encodings(v))
       case Err(e) => Err(e)
       case Ok(js) => Ok(JArr(js)))
  }

  /** What a container holds, encoded. */
  function Encodings(v: Value): (r: seq<Result<Json, Error>>)
    ensures |r| == Size(v)
    decreases v, 0
  {
    match v
    case VData(_, fields) =>
      seq(|fields|, i requires 0 <= i < |fields| => Under(Attr(fields[i].0), Encode(fields[i].1)))
    case VDict(entries) =>
      seq(|entries|, i requires 0 <= i < |entries| =>
        match entries[i].0
        case Opaque => Err(Error([], KeyNotString))
        case Text(k) => Under(Entry(k), Encode(entries[i].1)))
    case VTuple(items) => seq(|items|, i requires 0 <= i < |items| => Under(Index(i), Encode(items[i])))
    case VList(items) => seq(|items|, i requires 0 <= i < |items| => Under(Index(i), Encode(items[i])))
    case _ => []
  }

  function Size(v: Value): nat {
    match v
    case VData(_, fields) => |fields|
    case VDict(entries) => |entries|
    case VTuple(items) => |items|
    case VList(items) => |items|
    case _ => 0
  }

  function Named<T>(fields: seq<(string, Value)>, xs: seq<T>): (r: seq<(string, T)>)
    requires |xs| == |fields|
    ensures |r| == |fields|
  {
    seq(|fields|, i requires 0 <= i < |fields| => (fields[i].0, xs[i]))
  }

  function Texts(entries: seq<(Key, Value)>, xs: seq<Json>): (r: seq<(string, Json)>)
    requires |xs| == |entries|
    ensures |r| == |entries|
  {
    seq(|entries|, i requires 0 <= i < |entries| => (if entries[i].0.Text? then entries[i].0.s else "", xs[i]))
  }

  // ----- decoding

  datatype Shape = SNull | SBool | SNumber | SString | SArray | SObject

  function AtomShape(a: Atom): Shape {
    match a
    case Null => SNull
    case Bool(_) => SBool
    case Int(_) => SNumber
    case Float(_) => SNumber
    case Str(_) => SString
  }

  function ShapeOf(data: Json): Shape {
    match data
    case JAtom(a) => AtomShape(a)
    case JArr(_) => SArray
    case JObj(_) => SObject
  }

  /** ``shape in _shapes(tp)``. */
  predicate Takes(tp: Ann, shape: Shape) {
    match tp
    case TJson => true
    case TNull => shape == SNull
    case TBool => shape == SBool
    case TInt => shape == SNumber
    case TFloat => shape == SNumber
    case TStr => shape == SString
    case TUnion(arms) => exists k :: 0 <= k < |arms| && Takes(arms[k], shape)
    case TLit(allowed) => exists k :: 0 <= k < |allowed| && AtomShape(allowed[k]) == shape
    case TVar(_) => shape == SArray
    case TFixed(_) => shape == SArray
    case TDict(_) => shape == SObject
    case TData(_) => shape == SObject
  }

  /** ``_checked_passthrough``. */
  function Passthrough(data: Json): Result<Value, Error>
    decreases data, 1
  {
    match data
    case JAtom(a) => if FiniteAtom(a) then Ok(VAtom(a)) else Err(Error([], NonFinite))
    case JArr(_) => (match Collect(Passed(data)) case Err(e) => Err(e) case Ok(vs) => Ok(VList(vs)))
    case JObj(entries) => (match Collect(Passed(data)) case Err(e) => Err(e) case Ok(vs) => Ok(VDict(Keyed(entries, vs))))
  }

  function Passed(data: Json): (r: seq<Result<Value, Error>>)
    requires !data.JAtom?
    ensures |r| == Count(data)
    decreases data, 0
  {
    match data
    case JArr(items) => seq(|items|, i requires 0 <= i < |items| => Under(Index(i), Passthrough(items[i])))
    case JObj(entries) => seq(|entries|, i requires 0 <= i < |entries| => Under(Entry(entries[i].0), Passthrough(entries[i].1)))
  }

  function Count(data: Json): nat {
    match data
    case JAtom(_) => 0
    case JArr(items) => |items|
    case JObj(entries) => |entries|
  }

  function Keyed(entries: seq<(string, Json)>, vs: seq<Value>): (r: seq<(Key, Value)>)
    requires |vs| == |entries|
    ensures |r| == |entries|
  {
    seq(|entries|, i requires 0 <= i < |entries| => (Text(entries[i].0), vs[i]))
  }

  /** The arms that take this shape, in order. */
  function Fitting(arms: seq<Ann>, shape: Shape): (r: seq<nat>)
    ensures forall k :: 0 <= k < |r| ==> r[k] < |arms| && Takes(arms[r[k]], shape)
  {
    if arms == [] then []
    else
      var n := |arms| - 1;
      var before := Fitting(arms[..n], shape);
      if Takes(arms[n], shape) then before + [n] else before
  }

  /** ``_decode``; ``_decode_dataclass`` is its last case. */
  function Decode(env: Env, tp: Ann, data: Json): Result<Value, Error>
    decreases data, tp, 1
  {
    if !Takes(tp, ShapeOf(data)) then Err(Error([], WrongShape))
    else
      match tp
      case TJson => Passthrough(data)
      case TUnion(arms) =>
        var tries := Tries(env, tp, data);
        if |tries| == 1 then tries[0] else FirstOk(tries)
      case TInt => if data.a.Float? then Err(Error([], NotAnInteger)) else Ok(VAtom(data.a))
      case TFloat =>
        if data.a.Int? then Ok(VAtom(Float(Finite(data.a.n as real))))
        else if data.a.f.Finite? then Ok(VAtom(data.a))
        else Err(Error([], NonFinite))
      case TLit(allowed) => if data.JAtom? && data.a in allowed then Ok(VAtom(data.a)) else Err(Error([], NotAllowed))
      case TVar(_) => (match Collect(Parts(env, tp, data)) case Err(e) => Err(e) case Ok(vs) => Ok(VTuple(vs)))
      case TFixed(args) =>
        if |data.items| != |args| then Err(Error([], WrongLength(|args|, |data.items|)))
        else (match Collect(Parts(env, tp, data)) case Err(e) => Err(e) case Ok(vs) => Ok(VTuple(vs)))
      case TDict(_) =>
        (match Collect(Parts(env, tp, data)) case Err(e) => Err(e) case Ok(vs) => Ok(VDict(Keyed(data.entries, vs))))
      case TData(cls) =>
        if Unknown(env(cls), data.entries) != {} then Err(Error([], UnknownFields(Unknown(env(cls), data.entries))))
        else (match Collect(Parts(env, tp, data)) case Err(e) => Err(e) case Ok(vs) => Ok(VData(cls, Filled(env(cls), vs))))
      case _ => Ok(VAtom(data.a))
  }

  /** What the fitting arms of a union make of ``data``, in order. */
  function Tries(env: Env, tp: Ann, data: Json): (r: seq<Result<Value, Error>>)
    requires tp.TUnion?
    ensures |r| == |Fitting(tp.arms, ShapeOf(data))|
    decreases data, tp, 0
  {
    var fit := Fitting(tp.arms, ShapeOf(data));
    seq(|fit|, i requires 0 <= i < |fit| => Decode(env, tp.arms[fit[i]], data))
  }

  /** What a container of these annotations makes of its parts, in the order they are decoded. */
  predicate Container(env: Env, tp: Ann, data: Json) {
    match tp
    case TVar(_) => data.JArr?
    case TFixed(args) => data.JArr? && |data.items| == |args|
    case TDict(_) => data.JObj?
    case TData(_) => data.JObj?
    case _ => false
  }

  function Width(env: Env, tp: Ann, data: Json): nat
    requires Container(env, tp, data)
  {
    if tp.TData? then |env(tp.cls)| else Count(data)
  }

  function Parts(env: Env, tp: Ann, data: Json): (r: seq<Result<Value, Error>>)
    requires Container(env, tp, data)
    ensures |r| == Width(env, tp, data)
    decreases data, tp, 0
  {
    match tp
    case TVar(t) => seq(|data.items|, i requires 0 <= i < |data.items| => Under(Index(i), Decode(env, t, data.items[i])))
    case TFixed(args) => seq(|data.items|, i requires 0 <= i < |args| => Under(Index(i), Decode(env, args[i], data.items[i])))
    case TDict(t) =>
      seq(|data.entries|, i requires 0 <= i < |data.entries| => Under(Entry(data.entries[i].0), Decode(env, t, data.entries[i].1)))
    case TData(cls) =>
      var fields := env(cls);
      seq(|fields|, i requires 0 <= i < |fields| =>
        match Lookup(data.entries, fields[i].name)
        case Some(x) => Under(Attr(fields[i].name), Decode(env, fields[i].ann, x))
        case None =>
          match fields[i].default
          case Some(v) => Ok(v)
          case None => Err(Error([], MissingField(fields[i].name))))
  }

  function Unknown(fields: seq<Field>, entries: OrderedMap<string, Json>): set<string> {
    (set e | e in entries :: e.0) - (set f | f in fields :: f.name)
  }

  function Filled(fields: seq<Field>, vs: seq<Value>): (r: seq<(string, Value)>)
    requires |vs| == |fields|
    ensures |r| == |fields|
  {
    seq(|fields|, i requires 0 <= i < |fields| => (fields[i].name, vs[i]))
  }

  // ----- which arm of a union decodes

  lemma {:induction false} FittingIsComplete(arms: seq<Ann>, shape: Shape, k: nat)
    requires k < |arms| && Takes(arms[k], shape)
    ensures exists i :: 0 <= i < |Fitting(arms, shape)| && Fitting(arms, shape)[i] == k
  {
    var n := |arms| - 1;
    var before := Fitting(arms[..n], shape);
    if k < n {
      FittingIsComplete(arms[..n], shape, k);
      var i :| 0 <= i < |before| && before[i] == k;
      assert Fitting(arms, shape)[i] == k;
    } else {
      assert Fitting(arms, shape)[|before|] == k;
    }
  }

  lemma {:induction false} FittingAscends(arms: seq<Ann>, shape: Shape, i: nat, j: nat)
    requires i < j < |Fitting(arms, shape)|
    ensures Fitting(arms, shape)[i] < Fitting(arms, shape)[j]
  {
    var n := |arms| - 1;
    if j < |Fitting(arms[..n], shape)| {
      FittingAscends(arms[..n], shape, i, j);
    }
  }

  lemma FirstOkAt(rs: seq<Result<Value, Error>>, k: nat)
    requires k < |rs| && rs[k].Ok? && forall j :: 0 <= j < k ==> rs[j].Err?
    ensures FirstOk(rs) == rs[k]
  {
  }

  lemma UnionTries(env: Env, arms: seq<Ann>, data: Json, k: nat)
    requires k < |arms| && Takes(arms[k], ShapeOf(data))
    ensures var tries := Tries(env, TUnion(arms), data);
            Decode(env, TUnion(arms), data) == if |tries| == 1 then tries[0] else FirstOk(tries)
  {
  }

  /** A union decodes as its first arm that does. */
  lemma UnionIsFirst(env: Env, arms: seq<Ann>, data: Json, k: nat)
    requires k < |arms| && Decode(env, arms[k], data).Ok?
    requires forall j :: 0 <= j < k ==> Decode(env, arms[j], data).Err?
    ensures Decode(env, TUnion(arms), data) == Decode(env, arms[k], data)
  {
    var shape, tp := ShapeOf(data), TUnion(arms);
    var fit, tries := Fitting(arms, shape), Tries(env, tp, data);
    assert Takes(arms[k], shape);
    hide Decode, FirstOk, Takes, Fitting;
    FittingIsComplete(arms, shape, k);
    var i :| 0 <= i < |fit| && fit[i] == k;
    forall j | 0 <= j < i
      ensures tries[j].Err?
    {
      FittingAscends(arms, shape, j, i);
    }
    assert tries[i] == Decode(env, arms[k], data);
    FirstOkAt(tries, i);
    UnionTries(env, arms, data, k);
  }

  /** ...and not at all when no arm does; it blames its only fitting arm's part, or the value itself. */
  lemma UnionFails(env: Env, arms: seq<Ann>, data: Json)
    requires forall k :: 0 <= k < |arms| ==> Decode(env, arms[k], data).Err?
    ensures Decode(env, TUnion(arms), data).Err?
  {
  }

  /** The first arm of a union that decodes, where one does. */
  lemma FirstArm(env: Env, arms: seq<Ann>, data: Json, m: nat) returns (k: nat)
    requires m < |arms| && Decode(env, arms[m], data).Ok?
    ensures k <= m && Decode(env, arms[k], data).Ok? && forall j :: 0 <= j < k ==> Decode(env, arms[j], data).Err?
  {
    if j :| 0 <= j < m && Decode(env, arms[j], data).Ok? {
      k := FirstArm(env, arms, data, j);
    } else {
      k := m;
    }
  }

  // ----- decoding accepts exactly what conforms

  predicate FiniteJson(data: Json) {
    match data
    case JAtom(a) => FiniteAtom(a)
    case JArr(items) => forall i :: 0 <= i < |items| ==> FiniteJson(items[i])
    case JObj(entries) => forall i :: 0 <= i < |entries| ==> FiniteJson(entries[i].1)
  }

  /** The JSON an annotation stands for. */
  predicate Conforms(env: Env, tp: Ann, data: Json)
    decreases data, tp
  {
    match tp
    case TNull => data == JAtom(Null)
    case TBool => data.JAtom? && data.a.Bool?
    case TInt => data.JAtom? && data.a.Int?
    case TFloat => data.JAtom? && (data.a.Int? || (data.a.Float? && data.a.f.Finite?))
    case TStr => data.JAtom? && data.a.Str?
    case TJson => FiniteJson(data)
    case TLit(allowed) => data.JAtom? && data.a in allowed
    case TVar(t) => data.JArr? && forall i :: 0 <= i < |data.items| ==> Conforms(env, t, data.items[i])
    case TFixed(args) =>
      data.JArr? && |data.items| == |args| && forall i :: 0 <= i < |args| ==> Conforms(env, args[i], data.items[i])
    case TDict(t) => data.JObj? && forall i :: 0 <= i < |data.entries| ==> Conforms(env, t, data.entries[i].1)
    case TUnion(arms) => exists k :: 0 <= k < |arms| && Conforms(env, arms[k], data)
    case TData(cls) =>
      var fields := env(cls);
      && data.JObj?
      && (forall e :: e in data.entries ==> exists i :: 0 <= i < |fields| && fields[i].name == e.0)
      && forall i :: 0 <= i < |fields| ==>
           match Lookup(data.entries, fields[i].name)
           case None => fields[i].default.Some?
           case Some(x) => Conforms(env, fields[i].ann, x)
  }

  lemma {:induction false} PassesFinite(data: Json)
    ensures Passthrough(data).Ok? <==> FiniteJson(data)
    decreases data
  {
    if !data.JAtom? {
      Collected(Passed(data));
      forall i | 0 <= i < Count(data)
        ensures Passed(data)[i].Ok? <==> if data.JArr? then FiniteJson(data.items[i]) else FiniteJson(data.entries[i].1)
      {
        PassesFinite(if data.JArr? then data.items[i] else data.entries[i].1);
      }
    }
  }

  lemma {:induction false} DecodesWhatConforms(env: Env, tp: Ann, data: Json)
    ensures Decode(env, tp, data).Ok? <==> Conforms(env, tp, data)
    decreases data, tp, 1
  {
    if tp.TJson? {
      PassesFinite(data);
    } else if tp.TUnion? {
      var arms := tp.arms;
      forall k | 0 <= k < |arms|
        ensures Decode(env, arms[k], data).Ok? <==> Conforms(env, arms[k], data)
      {
        DecodesWhatConforms(env, arms[k], data);
      }
      if m :| 0 <= m < |arms| && Decode(env, arms[m], data).Ok? {
        var k := FirstArm(env, arms, data, m);
        UnionIsFirst(env, arms, data, k);
      } else {
        UnionFails(env, arms, data);
      }
    } else if Container(env, tp, data) {
      ContainerConforms(env, tp, data);
    }
  }

  lemma {:induction false} ContainerConforms(env: Env, tp: Ann, data: Json)
    requires Container(env, tp, data)
    ensures Decode(env, tp, data).Ok? <==> Conforms(env, tp, data)
    decreases data, tp, 0
  {
    Collected(Parts(env, tp, data));
    forall i | 0 <= i < Width(env, tp, data)
      ensures Parts(env, tp, data)[i].Ok? <==> PartConforms(env, tp, data, i)
    {
      var part := PartOf(env, tp, data, i);
      if part.Some? {
        DecodesWhatConforms(env, PartAnn(env, tp, i), part.value);
      }
    }
    ConformsByParts(env, tp, data);
  }

  lemma ConformsByParts(env: Env, tp: Ann, data: Json)
    requires Container(env, tp, data)
    ensures Conforms(env, tp, data) <==>
      && (tp.TData? ==> Unknown(env(tp.cls), data.entries) == {})
      && forall i :: 0 <= i < Width(env, tp, data) ==> PartConforms(env, tp, data, i)
  {
    if tp.TData? {
      UnknownIsEmpty(env(tp.cls), data.entries);
    }
    if forall i :: 0 <= i < Width(env, tp, data) ==> PartConforms(env, tp, data, i) {
      if tp.TData? {
        forall i | 0 <= i < |env(tp.cls)|
          ensures var x := Lookup(data.entries, env(tp.cls)[i].name);
                  if x.None? then env(tp.cls)[i].default.Some? else Conforms(env, env(tp.cls)[i].ann, x.value)
        {
          assert PartConforms(env, tp, data, i);
        }
      } else if tp.TDict? {
        forall i | 0 <= i < |data.entries|
          ensures Conforms(env, tp.value, data.entries[i].1)
        {
          assert PartConforms(env, tp, data, i);
        }
      } else {
        forall i | 0 <= i < |data.items|
          ensures Conforms(env, PartAnn(env, tp, i), data.items[i])
        {
          assert PartConforms(env, tp, data, i);
        }
      }
    }
  }

  lemma UnknownIsEmpty(fields: seq<Field>, entries: OrderedMap<string, Json>)
    ensures Unknown(fields, entries) == {} <==> forall e :: e in entries ==> exists i :: 0 <= i < |fields| && fields[i].name == e.0
  {
    if Unknown(fields, entries) == {} {
      forall e | e in entries
        ensures exists i :: 0 <= i < |fields| && fields[i].name == e.0
      {
        assert e.0 !in Unknown(fields, entries);
      }
    }
  }

  /** The annotation of one part. */
  function PartAnn(env: Env, tp: Ann, i: nat): Ann
    requires match tp
             case TFixed(args) => i < |args|
             case TData(cls) => i < |env(cls)|
             case TVar(_) => true
             case TDict(_) => true
             case _ => false
  {
    match tp
    case TVar(t) => t
    case TDict(t) => t
    case TFixed(args) => args[i]
    case TData(cls) => env(cls)[i].ann
  }

  /** The JSON of one part, if it is there. */
  function PartOf(env: Env, tp: Ann, data: Json, i: nat): (r: Option<Json>)
    requires Container(env, tp, data) && i < Width(env, tp, data)
    ensures r.Some? ==> r.value < data
  {
    if tp.TData? then Lookup(data.entries, env(tp.cls)[i].name)
    else if tp.TDict? then Some(data.entries[i].1)
    else Some(data.items[i])
  }

  predicate PartConforms(env: Env, tp: Ann, data: Json, i: nat)
    requires Container(env, tp, data) && i < Width(env, tp, data)
  {
    match PartOf(env, tp, data, i)
    case None => tp.TData? && env(tp.cls)[i].default.Some?
    case Some(x) => Conforms(env, PartAnn(env, tp, i), x)
  }

  // ----- what a decoded value is

  /** ``v`` is this JSON as it stands: atoms themselves, arrays as lists, objects as dicts in their order, no number but a finite one. */
  predicate Mirrors(data: Json, v: Value) {
    match data
    case JAtom(a) => v == VAtom(a) && (a.Float? ==> a.f.Finite?)
    case JArr(items) => v.VList? && |v.items| == |items| && forall i :: 0 <= i < |items| ==> Mirrors(items[i], v.items[i])
    case JObj(entries) =>
      && v.VDict? && |v.entries| == |entries|
      && forall i :: 0 <= i < |entries| ==> v.entries[i].0 == Text(entries[i].0) && Mirrors(entries[i].1, v.entries[i].1)
  }

  /** ``v`` is what this JSON stands for at this annotation. */
  ghost predicate Stands(env: Env, tp: Ann, data: Json, v: Value)
    decreases data, tp, 1
  {
    match tp
    case TNull => data == JAtom(Null) && v == VAtom(Null)
    case TBool => data.JAtom? && data.a.Bool? && v == VAtom(Bool(data.a.b))
    case TInt => data.JAtom? && data.a.Int? && v == VAtom(Int(data.a.n))
    case TFloat =>
      && data.JAtom? && v.VAtom? && v.a.Float? && v.a.f.Finite?
      && ((data.a.Int? && v.a.f.r == data.a.n as real) || (data.a.Float? && v.a.f == data.a.f))
    case TStr => data.JAtom? && data.a.Str? && v == VAtom(Str(data.a.s))
    case TJson => Mirrors(data, v)
    case TLit(allowed) => exists k :: 0 <= k < |allowed| && data == JAtom(allowed[k]) && v == VAtom(allowed[k])
    case TVar(t) =>
      && data.JArr? && v.VTuple? && |v.items| == |data.items|
      && forall i :: 0 <= i < |data.items| ==> Stands(env, t, data.items[i], v.items[i])
    case TFixed(args) =>
      && data.JArr? && v.VTuple? && |v.items| == |data.items| == |args|
      && forall i :: 0 <= i < |data.items| ==> Stands(env, args[i], data.items[i], v.items[i])
    case TDict(t) =>
      && data.JObj? && v.VDict? && |v.entries| == |data.entries|
      && forall i :: 0 <= i < |data.entries| ==>
           v.entries[i].0 == Text(data.entries[i].0) && Stands(env, t, data.entries[i].1, v.entries[i].1)
    case TUnion(arms) =>
      exists k :: 0 <= k < |arms| && Stands(env, arms[k], data, v) && forall j :: 0 <= j < k ==> !Conforms(env, arms[j], data)
    case TData(cls) =>
      && data.JObj? && v.VData? && v.cls == cls && |v.fields| == |env(cls)|
      && (forall e :: e in data.entries ==> exists f :: 0 <= f < |env(cls)| && env(cls)[f].name == e.0)
      && forall f :: 0 <= f < |env(cls)| ==> v.fields[f].0 == env(cls)[f].name && Fills(env, tp, f, data, v.fields[f].1)
  }

  /** ``v`` is what the object holds under the field's name, or the field's default where it holds nothing. */
  ghost predicate Fills(env: Env, tp: Ann, f: nat, data: Json, v: Value)
    requires tp.TData? && f < |env(tp.cls)| && data.JObj?
    decreases data, tp, 0
  {
    var field := env(tp.cls)[f];
    || (&& (forall i :: 0 <= i < |data.entries| ==> data.entries[i].0 != field.name)
        && field.default == Some(v))
    || (exists i :: 0 <= i < |data.entries| && data.entries[i].0 == field.name
                    && (forall j :: 0 <= j < i ==> data.entries[j].0 != field.name)
                    && Stands(env, field.ann, data.entries[i].1, v))
  }

  lemma {:induction false} PassesAsItIs(data: Json, v: Value)
    ensures Passthrough(data) == Ok(v) <==> Mirrors(data, v)
    decreases data
  {
    match data
    case JAtom(_) =>
    case JArr(items) =>
      if v.VList? && |v.items| == |items| {
        CollectIs(Passed(data), v.items);
        forall i | 0 <= i < |items|
          ensures Passed(data)[i] == Ok(v.items[i]) <==> Mirrors(items[i], v.items[i])
        {
          PassesAsItIs(items[i], v.items[i]);
        }
      }
    case JObj(entries) =>
      if v.VDict? && |v.entries| == |entries| {
        var vs := seq(|entries|, i requires 0 <= i < |entries| => v.entries[i].1);
        CollectIs(Passed(data), vs);
        forall i | 0 <= i < |entries|
          ensures Passed(data)[i] == Ok(vs[i]) <==> Mirrors(entries[i].1, v.entries[i].1)
        {
          PassesAsItIs(entries[i].1, v.entries[i].1);
        }
        KeyedIs(entries, Collect(Passed(data)), v.entries);
      }
  }

  /** Keyed values are these entries exactly when they are their values under their keys. */
  lemma KeyedIs(entries: seq<(string, Json)>, r: Result<seq<Value>, Error>, held: seq<(Key, Value)>)
    requires |held| == |entries| && (r.Ok? ==> |r.value| == |entries|)
    ensures (r.Ok? && Keyed(entries, r.value) == held) <==>
      && r == Ok(seq(|held|, i requires 0 <= i < |held| => held[i].1))
      && forall i :: 0 <= i < |held| ==> held[i].0 == Text(entries[i].0)
  {
    if r.Ok? {
      var values := seq(|held|, i requires 0 <= i < |held| => held[i].1);
      if Keyed(entries, r.value) == held {
        assert forall i :: 0 <= i < |held| ==> held[i] == Keyed(entries, r.value)[i];
        assert r.value == values;
      }
      if r.value == values && forall i :: 0 <= i < |held| ==> held[i].0 == Text(entries[i].0) {
        assert Keyed(entries, r.value) == held;
      }
    }
  }

  /** Decoding gives a value exactly when it is what the JSON stands for. */
  lemma {:induction false} DecodesAs(env: Env, tp: Ann, data: Json, v: Value)
    ensures Decode(env, tp, data) == Ok(v) <==> Stands(env, tp, data, v)
    decreases data, tp, 2
  {
    match tp
    case TJson => PassesAsItIs(data, v);
    case TUnion(arms) => UnionDecodesAs(env, arms, data, v);
    case TVar(_) => SequenceDecodesAs(env, tp, data, v);
    case TFixed(_) => SequenceDecodesAs(env, tp, data, v);
    case TDict(_) => MappingDecodesAs(env, tp, data, v);
    case TData(_) => DataDecodesAs(env, tp, data, v);
    case _ =>
  }

  lemma UnionValue(env: Env, arms: seq<Ann>, data: Json, v: Value)
    ensures Decode(env, TUnion(arms), data) == Ok(v) <==>
      exists k :: 0 <= k < |arms| && Decode(env, arms[k], data) == Ok(v) && forall j :: 0 <= j < k ==> Decode(env, arms[j], data).Err?
  {
    hide Decode;
    if m :| 0 <= m < |arms| && Decode(env, arms[m], data).Ok? {
      var k := FirstArm(env, arms, data, m);
      UnionIsFirst(env, arms, data, k);
    } else {
      UnionFails(env, arms, data);
    }
  }

  lemma {:induction false} UnionDecodesAs(env: Env, arms: seq<Ann>, data: Json, v: Value)
    ensures Decode(env, TUnion(arms), data) == Ok(v) <==> Stands(env, TUnion(arms), data, v)
    decreases data, TUnion(arms), 0
  {
    hide Decode, Conforms;
    UnionValue(env, arms, data, v);
    forall k | 0 <= k < |arms|
      ensures Decode(env, arms[k], data) == Ok(v) <==> Stands(env, arms[k], data, v)
      ensures Decode(env, arms[k], data).Ok? <==> Conforms(env, arms[k], data)
    {
      DecodesAs(env, arms[k], data, v);
      DecodesWhatConforms(env, arms[k], data);
    }
  }

  lemma {:induction false} SequenceDecodesAs(env: Env, tp: Ann, data: Json, v: Value)
    requires tp.TVar? || tp.TFixed?
    ensures Decode(env, tp, data) == Ok(v) <==> Stands(env, tp, data, v)
    decreases data, tp, 0
  {
    if Container(env, tp, data) && v.VTuple? && |v.items| == |data.items| {
      CollectIs(Parts(env, tp, data), v.items);
      forall i | 0 <= i < |data.items|
        ensures Parts(env, tp, data)[i] == Ok(v.items[i]) <==> Stands(env, PartAnn(env, tp, i), data.items[i], v.items[i])
      {
        DecodesAs(env, PartAnn(env, tp, i), data.items[i], v.items[i]);
      }
    }
  }

  lemma {:induction false} MappingDecodesAs(env: Env, tp: Ann, data: Json, v: Value)
    requires tp.TDict?
    ensures Decode(env, tp, data) == Ok(v) <==> Stands(env, tp, data, v)
    decreases data, tp, 0
  {
    if data.JObj? && v.VDict? && |v.entries| == |data.entries| {
      var vs := seq(|v.entries|, i requires 0 <= i < |v.entries| => v.entries[i].1);
      CollectIs(Parts(env, tp, data), vs);
      forall i | 0 <= i < |data.entries|
        ensures Parts(env, tp, data)[i] == Ok(vs[i]) <==> Stands(env, tp.value, data.entries[i].1, v.entries[i].1)
      {
        DecodesAs(env, tp.value, data.entries[i].1, v.entries[i].1);
      }
      KeyedIs(data.entries, Collect(Parts(env, tp, data)), v.entries);
    }
  }

  lemma {:induction false} FirstHeld(entries: OrderedMap<string, Json>, key: string)
    ensures Lookup(entries, key).None? <==> forall i :: 0 <= i < |entries| ==> entries[i].0 != key
    ensures Lookup(entries, key).Some? ==>
      exists i :: 0 <= i < |entries| && entries[i] == (key, Lookup(entries, key).value) && forall j :: 0 <= j < i ==> entries[j].0 != key
  {
    if entries != [] && entries[0].0 != key {
      var rest := entries[1..];
      FirstHeld(rest, key);
      assert forall i :: 0 <= i < |rest| ==> rest[i] == entries[i + 1];
      if Lookup(entries, key).Some? {
        var i :| 0 <= i < |rest| && rest[i] == (key, Lookup(rest, key).value) && forall j :: 0 <= j < i ==> rest[j].0 != key;
        assert forall j :: 1 <= j < i + 1 ==> entries[j] == rest[j - 1];
        assert entries[i + 1] == (key, Lookup(entries, key).value);
      }
    }
  }

  lemma FieldPart(env: Env, tp: Ann, data: Json, f: nat, v: Value)
    requires tp.TData? && data.JObj? && f < |env(tp.cls)|
    ensures Parts(env, tp, data)[f] == Ok(v) <==>
      match Lookup(data.entries, env(tp.cls)[f].name)
      case None => env(tp.cls)[f].default == Some(v)
      case Some(x) => Decode(env, env(tp.cls)[f].ann, x) == Ok(v)
  {
    hide Decode;
  }

  /** One field: what decoding makes of it is what fills it. */
  lemma {:induction false} FieldDecodesAs(env: Env, tp: Ann, data: Json, f: nat, v: Value)
    requires tp.TData? && data.JObj? && f < |env(tp.cls)|
    ensures Parts(env, tp, data)[f] == Ok(v) <==> Fills(env, tp, f, data, v)
    decreases data, tp, 0
  {
    hide Decode, Parts, Stands;
    var field, entries := env(tp.cls)[f], data.entries;
    FieldPart(env, tp, data, f, v);
    FirstHeld(entries, field.name);
    match Lookup(entries, field.name)
    case None =>
    case Some(x) =>
      var i :| 0 <= i < |entries| && entries[i] == (field.name, x) && forall j :: 0 <= j < i ==> entries[j].0 != field.name;
      DecodesAs(env, field.ann, x, v);
      OneFirst(entries, field.name, i);
  }

  lemma OneFirst(entries: OrderedMap<string, Json>, key: string, i: nat)
    requires i < |entries| && entries[i].0 == key && forall j :: 0 <= j < i ==> entries[j].0 != key
    ensures forall k :: 0 <= k < |entries| && entries[k].0 == key && (forall j :: 0 <= j < k ==> entries[j].0 != key) ==> k == i
  {
  }

  lemma DataValue(env: Env, tp: Ann, data: Json, v: Value)
    requires tp.TData? && data.JObj?
    ensures Decode(env, tp, data) == Ok(v) <==>
      && Unknown(env(tp.cls), data.entries) == {} && v.VData? && v.cls == tp.cls
      && Collect(Parts(env, tp, data)).Ok? && Filled(env(tp.cls), Collect(Parts(env, tp, data)).value) == v.fields
  {
    hide Parts, Filled, Unknown;
  }

  lemma StandsData(env: Env, tp: Ann, data: Json, v: Value)
    requires tp.TData?
    ensures Stands(env, tp, data, v) <==>
      && data.JObj? && v.VData? && v.cls == tp.cls && |v.fields| == |env(tp.cls)| && Unknown(env(tp.cls), data.entries) == {}
      && forall f :: 0 <= f < |env(tp.cls)| ==>
           v.fields[f].0 == env(tp.cls)[f].name && Fills(env, tp, f, data, v.fields[f].1)
  {
    hide Fills, Unknown;
    if data.JObj? {
      UnknownIsEmpty(env(tp.cls), data.entries);
    }
  }

  lemma {:induction false} DataDecodesAs(env: Env, tp: Ann, data: Json, v: Value)
    requires tp.TData?
    ensures Decode(env, tp, data) == Ok(v) <==> Stands(env, tp, data, v)
    decreases data, tp, 1
  {
    var fields := env(tp.cls);
    StandsData(env, tp, data, v);
    if data.JObj? {
      DataValue(env, tp, data, v);
      hide Decode, Parts, Fills, Unknown, Stands;
      if v.VData? && |v.fields| == |fields| {
        var vs := seq(|v.fields|, i requires 0 <= i < |v.fields| => v.fields[i].1);
        CollectIs(Parts(env, tp, data), vs);
        forall f | 0 <= f < |fields|
          ensures Parts(env, tp, data)[f] == Ok(vs[f]) <==> Fills(env, tp, f, data, v.fields[f].1)
        {
          FieldDecodesAs(env, tp, data, f, v.fields[f].1);
        }
        FilledIs(fields, Collect(Parts(env, tp, data)), v.fields);
      }
    }
  }

  lemma FilledIs(fields: seq<Field>, r: Result<seq<Value>, Error>, held: seq<(string, Value)>)
    requires |held| == |fields| && (r.Ok? ==> |r.value| == |fields|)
    ensures (r.Ok? && Filled(fields, r.value) == held) <==>
      && r == Ok(seq(|held|, i requires 0 <= i < |held| => held[i].1))
      && forall i :: 0 <= i < |held| ==> held[i].0 == fields[i].name
  {
    if r.Ok? {
      var values := seq(|held|, i requires 0 <= i < |held| => held[i].1);
      if Filled(fields, r.value) == held {
        assert forall i :: 0 <= i < |held| ==> held[i] == Filled(fields, r.value)[i];
        assert r.value == values;
      }
      if r.value == values && forall i :: 0 <= i < |held| ==> held[i].0 == fields[i].name {
        assert Filled(fields, r.value) == held;
      }
    }
  }

  // ----- errors point at what is wrong

  /** The value a path leads to. */
  function At(data: Json, path: seq<Step>): Option<Json>
    decreases path
  {
    if path == [] then Some(data)
    else
      match Child(data, path[0])
      case None => None
      case Some(x) => At(x, path[1..])
  }

  function Child(data: Json, step: Step): (r: Option<Json>)
    ensures r.Some? ==> r.value < data && (step.Index? <==> data.JArr?) && !data.JAtom?
  {
    match step
    case Index(i) => if data.JArr? && i < |data.items| then Some(data.items[i]) else None
    case Attr(name) => if data.JObj? then Lookup(data.entries, name) else None
    case Entry(key) => if data.JObj? then Lookup(data.entries, key) else None
  }

  lemma AtUnder(data: Json, step: Step, path: seq<Step>)
    ensures At(data, [step] + path) == match Child(data, step) case None => None case Some(x) => At(x, path)
  {
    assert ([step] + path)[1..] == path;
  }

  /** No object has a key twice, as no Python dict does. */
  ghost predicate Proper(data: Json) {
    match data
    case JAtom(_) => true
    case JArr(items) => forall i :: 0 <= i < |items| ==> Proper(items[i])
    case JObj(entries) => DistinctKeys(entries) && forall i :: 0 <= i < |entries| ==> Proper(entries[i].1)
  }

  lemma ChildIsProper(data: Json, step: Step)
    requires Proper(data) && Child(data, step).Some?
    ensures Proper(Child(data, step).value)
  {
    if data.JObj? {
      var i :| 0 <= i < |data.entries| && data.entries[i].1 == Child(data, step).value;
    }
  }

  /** Where a part is, seen from its container. */
  function PartStep(env: Env, tp: Ann, data: Json, i: nat): Step
    requires Container(env, tp, data) && i < Width(env, tp, data)
  {
    if tp.TData? then Attr(env(tp.cls)[i].name)
    else if tp.TDict? then Entry(data.entries[i].0)
    else Index(i)
  }

  /** A part that is there decodes on its own, its errors going under its step. */
  lemma PartDecodes(env: Env, tp: Ann, data: Json, i: nat)
    requires Container(env, tp, data) && i < Width(env, tp, data) && PartOf(env, tp, data, i).Some?
    ensures Parts(env, tp, data)[i]
      == Under(PartStep(env, tp, data, i), Decode(env, PartAnn(env, tp, i), PartOf(env, tp, data, i).value))
  {
  }

  lemma PartIsChild(env: Env, tp: Ann, data: Json, i: nat)
    requires Proper(data) && Container(env, tp, data) && i < Width(env, tp, data)
    ensures Child(data, PartStep(env, tp, data, i)) == PartOf(env, tp, data, i)
  {
    if tp.TDict? {
      LookupAt(data.entries, i);
    }
  }

  /** Another container with a child at the same step has it as a part of the same annotation. */
  lemma SamePart(env: Env, tp: Ann, data: Json, i: nat, data': Json) returns (k: nat)
    requires Container(env, tp, data) && i < Width(env, tp, data) && Container(env, tp, data')
    requires Child(data', PartStep(env, tp, data, i)).Some?
    ensures k < Width(env, tp, data') && PartOf(env, tp, data', k) == Child(data', PartStep(env, tp, data, i))
    ensures PartAnn(env, tp, k) == PartAnn(env, tp, i)
  {
    k := i;
    if tp.TDict? {
      var x := Child(data', PartStep(env, tp, data, i)).value;
      k :| k < |data'.entries| && data'.entries[k].1 == x;
    }
  }

  lemma {:induction false} PassBlame(data: Json, data': Json)
    requires Proper(data) && Passthrough(data).Err?
    ensures At(data, Passthrough(data).error.path).Some?
    ensures At(data', Passthrough(data).error.path) == At(data, Passthrough(data).error.path) ==> Passthrough(data').Err?
    decreases data
  {
    if !data.JAtom? {
      Collected(Passed(data));
      var i :| 0 <= i < Count(data) && Passed(data)[i] == Err(Passthrough(data).error);
      var x := if data.JArr? then data.items[i] else data.entries[i].1;
      var step := if data.JArr? then Index(i) else Entry(data.entries[i].0);
      if data.JObj? {
        LookupAt(data.entries, i);
      }
      var path := Passthrough(x).error.path;
      AtUnder(data, step, path);
      AtUnder(data', step, path);
      PassBlame(x, x);
      if At(data', [step] + path) == At(data, [step] + path) {
        var x' := Child(data', step).value;
        PassBlame(x, x');
        var k: nat :| k < Count(data') && x' == if data'.JArr? then data'.items[k] else data'.entries[k].1;
        assert Passed(data')[k].Err?;
        Collected(Passed(data'));
      }
    }
  }

  /**
   * The path of a decoding error leads to a value, and to the one at fault: whatever else is
   * changed, as long as that value is there the data does not decode.
   */
  lemma {:induction false} Blame(env: Env, tp: Ann, data: Json, data': Json)
    requires Proper(data) && Decode(env, tp, data).Err?
    ensures At(data, Decode(env, tp, data).error.path).Some?
    ensures At(data', Decode(env, tp, data).error.path) == At(data, Decode(env, tp, data).error.path) ==>
      Decode(env, tp, data').Err?
    decreases data, tp, 1
  {
    var path := Decode(env, tp, data).error.path;
    if path != [] {
      if tp.TJson? {
        PassBlame(data, data');
      } else if tp.TUnion? {
        var fit := Fitting(tp.arms, ShapeOf(data));
        assert |fit| == 1 && Tries(env, tp, data)[0] == Decode(env, tp.arms[fit[0]], data);
        Blame(env, tp.arms[fit[0]], data, data');
        if At(data', path) == At(data, path) {
          assert ShapeOf(data') == ShapeOf(data);
          assert Tries(env, tp, data')[0] == Decode(env, tp.arms[fit[0]], data');
        }
      } else {
        PartBlame(env, tp, data, data');
      }
    }
  }

  /** An error with a path is a part's. */
  lemma FirstBadPart(env: Env, tp: Ann, data: Json) returns (i: nat)
    requires Decode(env, tp, data).Err? && Decode(env, tp, data).error.path != [] && !tp.TJson? && !tp.TUnion?
    ensures Container(env, tp, data) && i < Width(env, tp, data) && Parts(env, tp, data)[i] == Err(Decode(env, tp, data).error)
  {
    Collected(Parts(env, tp, data));
    i :| 0 <= i < Width(env, tp, data) && Parts(env, tp, data)[i] == Err(Decode(env, tp, data).error);
  }

  lemma BadPartFails(env: Env, tp: Ann, data: Json, i: nat)
    requires Container(env, tp, data) && i < Width(env, tp, data) && Parts(env, tp, data)[i].Err?
    ensures Decode(env, tp, data).Err?
  {
    Collected(Parts(env, tp, data));
  }

  lemma {:induction false} PartBlame(env: Env, tp: Ann, data: Json, data': Json)
    requires Proper(data) && Decode(env, tp, data).Err? && Decode(env, tp, data).error.path != []
    requires !tp.TJson? && !tp.TUnion?
    ensures At(data, Decode(env, tp, data).error.path).Some?
    ensures At(data', Decode(env, tp, data).error.path) == At(data, Decode(env, tp, data).error.path) ==>
      Decode(env, tp, data').Err?
    decreases data, tp, 0
  {
    var i := FirstBadPart(env, tp, data);
    var x := PartOf(env, tp, data, i);
    PartDecodes(env, tp, data, i);
    PartIsChild(env, tp, data, i);
    var step, t := PartStep(env, tp, data, i), PartAnn(env, tp, i);
    ChildIsProper(data, step);
    var path := Decode(env, t, x.value).error.path;
    AtUnder(data, step, path);
    AtUnder(data', step, path);
    Blame(env, t, x.value, x.value);
    if At(data', [step] + path) == At(data, [step] + path) {
      Blame(env, t, x.value, Child(data', step).value);
      if Container(env, tp, data') {
        var k := SamePart(env, tp, data, i, data');
        PartDecodes(env, tp, data', k);
        BadPartFails(env, tp, data', k);
      }
    }
  }

  // ----- the reason says what is wrong

  /** A reason that is right about the value itself. */
  ghost predicate IsWrong(env: Env, tp: Ann, data: Json, reason: Reason) {
    match reason
    case WrongShape => !Conforms(env, tp, data) && !Takes(tp, ShapeOf(data))
    case NotAnInteger => tp == TInt && data.JAtom? && data.a.Float?
    case NonFinite => (tp == TFloat || tp == TJson) && data.JAtom? && data.a.Float? && !data.a.f.Finite?
    case NotAllowed => tp.TLit? && forall k :: 0 <= k < |tp.allowed| ==> data != JAtom(tp.allowed[k])
    case WrongLength(expected, got) => tp.TFixed? && data.JArr? && expected == |tp.args| && got == |data.items| && expected != got
    case UnknownFields(names) =>
      && tp.TData? && data.JObj? && names != {}
      && forall x :: x in names <==>
           (exists e :: 0 <= e < |data.entries| && data.entries[e].0 == x)
           && forall f :: 0 <= f < |env(tp.cls)| ==> env(tp.cls)[f].name != x
    case MissingField(name) =>
      && tp.TData? && data.JObj? && (forall e :: 0 <= e < |data.entries| ==> data.entries[e].0 != name)
      && exists f :: 0 <= f < |env(tp.cls)| && env(tp.cls)[f].name == name && env(tp.cls)[f].default.None?
    case _ => false
  }

  /** What is wrong with the value itself, at an annotation that is no union. */
  lemma ReasonIs(env: Env, tp: Ann, data: Json)
    requires !tp.TUnion? && Decode(env, tp, data).Err? && Decode(env, tp, data).error.path == []
    ensures IsWrong(env, tp, data, Decode(env, tp, data).error.reason)
  {
    DecodesWhatConforms(env, tp, data);
    if !Takes(tp, ShapeOf(data)) {
      hide Conforms, Takes;
    } else if tp.TData? {
      DataReason(env, tp, data);
    } else if Container(env, tp, data) {
      hide Conforms, Takes;
      Collected(Parts(env, tp, data));
    } else if tp.TJson? && !data.JAtom? {
      hide Conforms, Takes;
      Collected(Passed(data));
    } else {
      hide Conforms;
    }
  }

  lemma DataReason(env: Env, tp: Ann, data: Json)
    requires tp.TData? && data.JObj? && Decode(env, tp, data).Err? && Decode(env, tp, data).error.path == []
    ensures IsWrong(env, tp, data, Decode(env, tp, data).error.reason)
  {
    hide Conforms;
    if Unknown(env(tp.cls), data.entries) == {} {
      Collected(Parts(env, tp, data));
      var i :| 0 <= i < Width(env, tp, data) && Parts(env, tp, data)[i] == Err(Decode(env, tp, data).error);
      FirstHeld(data.entries, env(tp.cls)[i].name);
    } else {
      UnknownAre(env(tp.cls), data.entries);
    }
  }

  lemma UnknownAre(fields: seq<Field>, entries: OrderedMap<string, Json>)
    ensures forall x :: x in Unknown(fields, entries) <==>
      (exists e :: 0 <= e < |entries| && entries[e].0 == x) && forall f :: 0 <= f < |fields| ==> fields[f].name != x
  {
    assert forall e :: 0 <= e < |entries| ==> entries[e] in entries;
    assert forall f :: 0 <= f < |fields| ==> fields[f] in fields;
  }

  /** A union with one arm for the shape fails as that arm does; with several or none it names each one's reason, in order. */
  lemma UnionReason(env: Env, arms: seq<Ann>, data: Json)
    requires Decode(env, TUnion(arms), data).Err? && Takes(TUnion(arms), ShapeOf(data))
    ensures var fit := Fitting(arms, ShapeOf(data));
            if |fit| == 1 then Decode(env, TUnion(arms), data) == Decode(env, arms[fit[0]], data)
            else var e := Decode(env, TUnion(arms), data).error;
                 && e.path == [] && e.reason.NoArm? && |e.reason.failures| == |fit|
                 && forall i :: 0 <= i < |fit| ==>
                      Decode(env, arms[fit[i]], data).Err? && e.reason.failures[i] == Decode(env, arms[fit[i]], data).error.reason
  {
    var fit, tries := Fitting(arms, ShapeOf(data)), Tries(env, TUnion(arms), data);
    var k :| 0 <= k < |arms| && Takes(arms[k], ShapeOf(data));
    UnionTries(env, arms, data, k);
    assert forall i :: 0 <= i < |fit| ==> tries[i] == Decode(env, arms[fit[i]], data);
    hide Decode, Tries, Fitting, Takes;
    if |fit| != 1 {
      NoneOk(tries);
    }
  }

  /** Nothing decoded: the first of several results is an error only where all of them are, and it lists their reasons. */
  lemma NoneOk(tries: seq<Result<Value, Error>>)
    requires FirstOk(tries).Err?
    ensures FirstOk(tries).error.reason.NoArm? && |FirstOk(tries).error.reason.failures| == |tries|
    ensures forall i :: 0 <= i < |tries| ==> tries[i].Err? && FirstOk(tries).error.reason.failures[i] == tries[i].error.reason
  {
    if k: nat :| k < |tries| && tries[k].Ok? {
      var f := FirstTry(tries, k);
    }
  }

  lemma FirstTry(rs: seq<Result<Value, Error>>, k: nat) returns (f: nat)
    requires k < |rs| && rs[k].Ok?
    ensures f <= k && rs[f].Ok? && forall j :: 0 <= j < f ==> rs[j].Err?
  {
    if j: nat :| j < k && rs[j].Ok? {
      f := FirstTry(rs, j);
    } else {
      f := k;
    }
  }

  // ----- decoding gives well-typed values

  predicate TextKeys(entries: seq<(Key, Value)>) {
    forall i :: 0 <= i < |entries| ==> entries[i].0.Text?
  }

  /** A value passed through: JSON again, held in lists and mappings. */
  predicate Raw(v: Value) {
    match v
    case VAtom(a) => FiniteAtom(a)
    case VList(items) => forall i :: 0 <= i < |items| ==> Raw(items[i])
    case VDict(entries) => TextKeys(entries) && forall i :: 0 <= i < |entries| ==> Raw(entries[i].1)
    case _ => false
  }

  /** ``v`` is a finite value of the annotation. */
  predicate Typed(env: Env, tp: Ann, v: Value)
    decreases v, tp
  {
    match tp
    case TNull => v == VAtom(Null)
    case TBool => v.VAtom? && v.a.Bool?
    case TInt => v.VAtom? && v.a.Int?
    case TFloat => v.VAtom? && v.a.Float? && v.a.f.Finite?
    case TStr => v.VAtom? && v.a.Str?
    case TJson => Raw(v)
    case TLit(allowed) => v.VAtom? && v.a in allowed
    case TVar(t) => v.VTuple? && forall i :: 0 <= i < |v.items| ==> Typed(env, t, v.items[i])
    case TFixed(args) => v.VTuple? && |v.items| == |args| && forall i :: 0 <= i < |args| ==> Typed(env, args[i], v.items[i])
    case TDict(t) => v.VDict? && TextKeys(v.entries) && forall i :: 0 <= i < |v.entries| ==> Typed(env, t, v.entries[i].1)
    case TUnion(arms) => exists k :: 0 <= k < |arms| && Typed(env, arms[k], v)
    case TData(cls) =>
      var fields := env(cls);
      && v.VData? && v.cls == cls && |v.fields| == |fields|
      && forall i :: 0 <= i < |fields| ==> v.fields[i].0 == fields[i].name && Typed(env, fields[i].ann, v.fields[i].1)
  }

  /** What dataclasses are like: field names are distinct, and a default is a value of its field. */
  ghost predicate Declared(env: Env) {
    forall cls: string :: DeclaredClass(env, env(cls))
  }

  ghost predicate DeclaredClass(env: Env, fields: seq<Field>) {
    && (forall i, j :: 0 <= i < j < |fields| ==> fields[i].name != fields[j].name)
    && (forall i :: 0 <= i < |fields| && fields[i].default.Some? ==> Typed(env, fields[i].ann, fields[i].default.value))
  }

  lemma {:induction false} PassesRaw(data: Json)
    requires Passthrough(data).Ok?
    ensures Raw(Passthrough(data).value)
    decreases data
  {
    if !data.JAtom? {
      Collected(Passed(data));
      forall i | 0 <= i < Count(data)
        ensures Passed(data)[i].Ok? && Raw(Passed(data)[i].value)
      {
        assert Passed(data)[i].Ok?;
        PassesRaw(if data.JArr? then data.items[i] else data.entries[i].1);
      }
    }
  }

  lemma {:induction false} DecodeTyped(env: Env, tp: Ann, data: Json)
    requires Declared(env) && Decode(env, tp, data).Ok?
    ensures Typed(env, tp, Decode(env, tp, data).value)
    decreases data, tp, 1
  {
    if tp.TJson? {
      PassesRaw(data);
    } else if tp.TUnion? {
      UnionTyped(env, tp.arms, data);
    } else if Container(env, tp, data) {
      ContainerTyped(env, tp, data);
    }
  }

  lemma {:induction false} UnionTyped(env: Env, arms: seq<Ann>, data: Json)
    requires Declared(env) && Decode(env, TUnion(arms), data).Ok?
    ensures Typed(env, TUnion(arms), Decode(env, TUnion(arms), data).value)
    decreases data, TUnion(arms), 0
  {
    hide Decode;
    if forall k :: 0 <= k < |arms| ==> Decode(env, arms[k], data).Err? {
      UnionFails(env, arms, data);
    } else {
      var m :| 0 <= m < |arms| && Decode(env, arms[m], data).Ok?;
      var k := FirstArm(env, arms, data, m);
      UnionIsFirst(env, arms, data, k);
      DecodeTyped(env, arms[k], data);
    }
  }

  /** What a container decodes to, part by part. */
  function Held(v: Value, i: nat): Value
    requires i < Size(v)
  {
    match v
    case VData(_, fields) => fields[i].1
    case VDict(entries) => entries[i].1
    case VTuple(items) => items[i]
    case VList(items) => items[i]
  }

  lemma HeldIsDecoded(env: Env, tp: Ann, data: Json)
    requires Container(env, tp, data) && Decode(env, tp, data).Ok?
    ensures var v := Decode(env, tp, data).value;
            Size(v) == Width(env, tp, data) && forall i :: 0 <= i < Size(v) ==> Parts(env, tp, data)[i] == Ok(Held(v, i))
  {
    Collected(Parts(env, tp, data));
  }

  lemma {:induction false} ContainerTyped(env: Env, tp: Ann, data: Json)
    requires Declared(env) && Container(env, tp, data) && Decode(env, tp, data).Ok?
    ensures Typed(env, tp, Decode(env, tp, data).value)
    decreases data, tp, 0
  {
    var v := Decode(env, tp, data).value;
    HeldIsDecoded(env, tp, data);
    forall i | 0 <= i < Size(v)
      ensures Typed(env, PartAnn(env, tp, i), Held(v, i))
    {
      assert Parts(env, tp, data)[i] == Ok(Held(v, i));
      var x := PartOf(env, tp, data, i);
      if x.Some? {
        PartDecodes(env, tp, data, i);
        DecodeTyped(env, PartAnn(env, tp, i), x.value);
      } else {
        assert DeclaredClass(env, env(tp.cls));
      }
    }
    if tp.TData? {
      forall i | 0 <= i < |env(tp.cls)|
        ensures v.fields[i].0 == env(tp.cls)[i].name && Typed(env, env(tp.cls)[i].ann, v.fields[i].1)
      {
        assert Typed(env, PartAnn(env, tp, i), Held(v, i));
      }
    } else if tp.TDict? {
      forall i | 0 <= i < |v.entries|
        ensures Typed(env, tp.value, v.entries[i].1)
      {
        assert Typed(env, PartAnn(env, tp, i), Held(v, i));
      }
    } else {
      forall i | 0 <= i < |v.items|
        ensures Typed(env, PartAnn(env, tp, i), v.items[i])
      {
        assert Typed(env, PartAnn(env, tp, i), Held(v, i));
      }
    }
  }

  // ----- round trips

  /** The union's arm ``tp`` refuses what ``v`` is encoded as. */
  predicate Refuses(env: Env, tp: Ann, v: Value) {
    match Encode(v)
    case Ok(j) => !Conforms(env, tp, j)
    case Err(_) => true
  }

  predicate RefusedBefore(env: Env, arms: seq<Ann>, k: nat, v: Value)
    requires k <= |arms|
  {
    forall j :: 0 <= j < k ==> Refuses(env, arms[j], v)
  }

  /** In every union on the way down, an arm the value belongs to comes before any other that takes its encoding. */
  predicate Faithful(env: Env, tp: Ann, v: Value)
    decreases v, tp
  {
    match tp
    case TUnion(arms) =>
      exists k ::
        && 0 <= k < |arms| && Typed(env, arms[k], v) && Faithful(env, arms[k], v)
        && RefusedBefore(env, arms, k, v)
    case TVar(t) => v.VTuple? ==> forall i :: 0 <= i < |v.items| ==> Faithful(env, t, v.items[i])
    case TFixed(args) => v.VTuple? && |v.items| == |args| ==> forall i :: 0 <= i < |args| ==> Faithful(env, args[i], v.items[i])
    case TDict(t) => v.VDict? ==> forall i :: 0 <= i < |v.entries| ==> Faithful(env, t, v.entries[i].1)
    case TData(cls) =>
      v.VData? && |v.fields| == |env(cls)| ==> forall i :: 0 <= i < |v.fields| ==> Faithful(env, env(cls)[i].ann, v.fields[i].1)
    case _ => true
  }

  predicate Composite(tp: Ann) {
    tp.TVar? || tp.TFixed? || tp.TDict? || tp.TData?
  }

  /** ``PartAnn`` is defined for every part of a value of a composite annotation, which is of its annotation. */
  lemma PartsTyped(env: Env, tp: Ann, v: Value)
    requires Composite(tp) && Typed(env, tp, v)
    ensures tp.TFixed? ==> Size(v) == |tp.args|
    ensures tp.TData? ==> Size(v) == |env(tp.cls)|
    ensures forall i :: 0 <= i < Size(v) ==> Held(v, i) < v && Typed(env, PartAnn(env, tp, i), Held(v, i))
  {
  }

  lemma FaithfulByParts(env: Env, tp: Ann, v: Value)
    requires Composite(tp) && Typed(env, tp, v)
    ensures tp.TFixed? ==> Size(v) == |tp.args|
    ensures tp.TData? ==> Size(v) == |env(tp.cls)|
    ensures Faithful(env, tp, v) <==> forall i :: 0 <= i < Size(v) ==> Faithful(env, PartAnn(env, tp, i), Held(v, i))
  {
    PartsTyped(env, tp, v);
    if forall i :: 0 <= i < Size(v) ==> Faithful(env, PartAnn(env, tp, i), Held(v, i)) {
      if tp.TData? {
        forall i | 0 <= i < |v.fields|
          ensures Faithful(env, env(tp.cls)[i].ann, v.fields[i].1)
        {
          assert Faithful(env, PartAnn(env, tp, i), Held(v, i));
        }
      } else if tp.TDict? {
        forall i | 0 <= i < |v.entries|
          ensures Faithful(env, tp.value, v.entries[i].1)
        {
          assert Faithful(env, PartAnn(env, tp, i), Held(v, i));
        }
      } else {
        forall i | 0 <= i < |v.items|
          ensures Faithful(env, PartAnn(env, tp, i), v.items[i])
        {
          assert Faithful(env, PartAnn(env, tp, i), Held(v, i));
        }
      }
    }
  }

  lemma {:induction false} RawRoundTrip(v: Value)
    requires Raw(v)
    ensures Encode(v).Ok? && Passthrough(Encode(v).value) == Ok(v)
    decreases v
  {
    if !v.VAtom? {
      Collected(Encodings(v));
      forall i | 0 <= i < Size(v)
        ensures Encodings(v)[i].Ok? && Passthrough(Encodings(v)[i].value) == Ok(Held(v, i))
      {
        RawRoundTrip(Held(v, i));
      }
      var j := Encode(v).value;
      var held := seq(Size(v), i requires 0 <= i < Size(v) => Held(v, i));
      CollectIs(Passed(j), held);
      if v.VDict? {
        assert Keyed(j.entries, held) == v.entries;
      } else {
        assert held == v.items;
      }
    }
  }

  /** What a typed value is encoded as has the encodings of its parts as its parts. */
  lemma EncodedParts(env: Env, tp: Ann, v: Value)
    requires Declared(env) && Composite(tp) && Typed(env, tp, v)
    requires forall i :: 0 <= i < Size(v) ==> Encode(Held(v, i)).Ok?
    ensures Encode(v).Ok?
    ensures Container(env, tp, Encode(v).value) && Width(env, tp, Encode(v).value) == Size(v)
    ensures forall i :: 0 <= i < Size(v) ==> PartOf(env, tp, Encode(v).value, i) == Some(Encode(Held(v, i)).value)
    ensures tp.TData? ==> Unknown(env(tp.cls), Encode(v).value.entries) == {}
  {
    Collected(Encodings(v));
    forall i | 0 <= i < Size(v)
      ensures Encodings(v)[i] == Ok(Encode(Held(v, i)).value)
    {
    }
    if tp.TData? {
      EncodedFields(env, tp.cls, v);
    }
  }

  /** An encoded instance has one entry a field, in order. */
  lemma FieldEntries(env: Env, cls: string, v: Value)
    requires Typed(env, TData(cls), v) && Encode(v).Ok?
    requires forall i :: 0 <= i < Size(v) ==> Encode(Held(v, i)).Ok? && Encodings(v)[i] == Ok(Encode(Held(v, i)).value)
    ensures Encode(v).value.JObj? && |Encode(v).value.entries| == Size(v) == |env(cls)|
    ensures forall i :: 0 <= i < Size(v) ==> Encode(v).value.entries[i] == (env(cls)[i].name, Encode(Held(v, i)).value)
  {
    Collected(Encodings(v));
  }

  lemma EncodedFields(env: Env, cls: string, v: Value)
    requires Declared(env) && Typed(env, TData(cls), v)
    requires Encode(v).Ok?
    requires forall i :: 0 <= i < Size(v) ==> Encode(Held(v, i)).Ok? && Encodings(v)[i] == Ok(Encode(Held(v, i)).value)
    ensures Encode(v).value.JObj?
    ensures forall i :: 0 <= i < Size(v) ==> Lookup(Encode(v).value.entries, env(cls)[i].name) == Some(Encode(Held(v, i)).value)
    ensures Unknown(env(cls), Encode(v).value.entries) == {}
  {
    hide Encode, Typed, Unknown;
    FieldEntries(env, cls, v);
    var entries := Encode(v).value.entries;
    assert DeclaredClass(env, env(cls));
    assert DistinctKeys(entries);
    forall i | 0 <= i < Size(v)
      ensures Lookup(entries, env(cls)[i].name) == Some(Encode(Held(v, i)).value)
    {
      LookupAt(entries, i);
    }
    UnknownIsEmpty(env(cls), entries);
  }

  /** A typed value's encoding decodes to the value again exactly when it is faithful. */
  lemma {:induction false} RoundTrip(env: Env, tp: Ann, v: Value)
    requires Declared(env) && Typed(env, tp, v)
    ensures Encode(v).Ok?
    ensures Decode(env, tp, Encode(v).value) == Ok(v) <==> Faithful(env, tp, v)
    decreases v, tp, 1
  {
    if tp.TJson? {
      RawRoundTrip(v);
    } else if tp.TUnion? {
      UnionRoundTrip(env, tp.arms, v);
    } else if Composite(tp) {
      CompositeRoundTrip(env, tp, v);
    }
  }

  lemma RefusesIs(env: Env, tp: Ann, v: Value)
    requires Encode(v).Ok?
    ensures Decode(env, tp, Encode(v).value).Ok? <==> !Refuses(env, tp, v)
  {
    DecodesWhatConforms(env, tp, Encode(v).value);
  }

  lemma TypedArm(env: Env, arms: seq<Ann>, v: Value) returns (m: nat)
    requires Typed(env, TUnion(arms), v)
    ensures m < |arms| && Typed(env, arms[m], v)
  {
    m :| 0 <= m < |arms| && Typed(env, arms[m], v);
  }

  lemma FaithfulUnion(env: Env, arms: seq<Ann>, v: Value)
    ensures Faithful(env, TUnion(arms), v) <==>
      exists k :: 0 <= k < |arms| && Typed(env, arms[k], v) && Faithful(env, arms[k], v) && RefusedBefore(env, arms, k, v)
  {
  }

  lemma {:induction false} UnionRoundTrip(env: Env, arms: seq<Ann>, v: Value)
    requires Declared(env) && Typed(env, TUnion(arms), v)
    ensures Encode(v).Ok?
    ensures Decode(env, TUnion(arms), Encode(v).value) == Ok(v) <==> Faithful(env, TUnion(arms), v)
    decreases v, TUnion(arms), 0
  {
    hide Decode, Encode, Declared, Refuses, Typed, Faithful;
    var m := TypedArm(env, arms, v);
    FaithfulUnion(env, arms, v);
    RoundTrip(env, arms[m], v);
    var j := Encode(v).value;
    forall k | 0 <= k < |arms|
      ensures Decode(env, arms[k], j).Ok? <==> !Refuses(env, arms[k], v)
      ensures Typed(env, arms[k], v) ==> (Decode(env, arms[k], j) == Ok(v) <==> Faithful(env, arms[k], v))
    {
      RefusesIs(env, arms[k], v);
      if Typed(env, arms[k], v) {
        RoundTrip(env, arms[k], v);
      }
    }
    if Faithful(env, TUnion(arms), v) {
      var k :| 0 <= k < |arms| && Typed(env, arms[k], v) && Faithful(env, arms[k], v) && RefusedBefore(env, arms, k, v);
      UnionIsFirst(env, arms, j, k);
    }
    if Decode(env, TUnion(arms), j) == Ok(v) {
      var k := DecodingArm(env, arms, j);
      assert Typed(env, arms[k], v) && Faithful(env, arms[k], v);
      assert RefusedBefore(env, arms, k, v);
    }
  }

  /** The arm a union decodes by. */
  lemma DecodingArm(env: Env, arms: seq<Ann>, data: Json) returns (k: nat)
    requires Declared(env) && Decode(env, TUnion(arms), data).Ok?
    ensures k < |arms| && Decode(env, arms[k], data) == Decode(env, TUnion(arms), data)
    ensures Typed(env, arms[k], Decode(env, arms[k], data).value)
    ensures forall j :: 0 <= j < k ==> Decode(env, arms[j], data).Err?
  {
    k := 0;
    if forall k :: 0 <= k < |arms| ==> Decode(env, arms[k], data).Err? {
      UnionFails(env, arms, data);
    } else {
      var i :| 0 <= i < |arms| && Decode(env, arms[i], data).Ok?;
      k := FirstArm(env, arms, data, i);
      UnionIsFirst(env, arms, data, k);
      DecodeTyped(env, arms[k], data);
    }
  }

  lemma {:induction false} CompositeRoundTrip(env: Env, tp: Ann, v: Value)
    requires Declared(env) && Composite(tp) && Typed(env, tp, v)
    ensures Encode(v).Ok?
    ensures Decode(env, tp, Encode(v).value) == Ok(v) <==> Faithful(env, tp, v)
    decreases v, tp, 0
  {
    hide Encode, Decode, Faithful, Typed;
    PartsTyped(env, tp, v);
    forall i | 0 <= i < Size(v)
      ensures Encode(Held(v, i)).Ok?
      ensures Decode(env, PartAnn(env, tp, i), Encode(Held(v, i)).value) == Ok(Held(v, i))
          <==> Faithful(env, PartAnn(env, tp, i), Held(v, i))
    {
      RoundTrip(env, PartAnn(env, tp, i), Held(v, i));
    }
    EncodedParts(env, tp, v);
    var j := Encode(v).value;
    forall i | 0 <= i < Size(v)
      ensures Parts(env, tp, j)[i] == Ok(Held(v, i)) <==> Faithful(env, PartAnn(env, tp, i), Held(v, i))
    {
      PartDecodes(env, tp, j, i);
    }
    FaithfulByParts(env, tp, v);
    var held := seq(Size(v), i requires 0 <= i < Size(v) => Held(v, i));
    CollectIs(Parts(env, tp, j), held);
    Rebuilt(env, tp, v, j, held);
  }

  /** A value is rebuilt from its parts, and only from them. */
  lemma Rebuilt(env: Env, tp: Ann, v: Value, j: Json, held: seq<Value>)
    requires Composite(tp) && Typed(env, tp, v) && Encode(v) == Ok(j) && Container(env, tp, j)
    requires |held| == Size(v) == Width(env, tp, j) && forall i :: 0 <= i < Size(v) ==> held[i] == Held(v, i)
    requires tp.TData? ==> Unknown(env(tp.cls), j.entries) == {}
    ensures Decode(env, tp, j) == Ok(v) <==> Collect(Parts(env, tp, j)) == Ok(held)
  {
    if Decode(env, tp, j) == Ok(v) {
      HeldIsDecoded(env, tp, j);
      CollectIs(Parts(env, tp, j), held);
    }
    if tp.TData? {
      assert Filled(env(tp.cls), held) == v.fields;
    } else if tp.TDict? {
      Collected(Encodings(v));
      assert Keyed(j.entries, held) == v.entries;
    } else {
      assert held == v.items;
    }
  }

  // ----- stricter arms first

  /** Put before ``b``, the arm ``a`` takes no encoding of a value of ``b`` that is not its own. */
  ghost predicate Apart(env: Env, a: Ann, b: Ann) {
    forall v: Value :: Typed(env, b, v) ==> Typed(env, a, v) || Refuses(env, a, v)
  }

  /** Unions put stricter arms first. */
  ghost predicate Ordered(env: Env, tp: Ann) {
    match tp
    case TUnion(arms) =>
      && (forall k :: 0 <= k < |arms| ==> Ordered(env, arms[k]))
      && (forall j, k :: 0 <= j < k < |arms| ==> Apart(env, arms[j], arms[k]))
    case TVar(t) => Ordered(env, t)
    case TFixed(args) => forall i :: 0 <= i < |args| ==> Ordered(env, args[i])
    case TDict(t) => Ordered(env, t)
    case _ => true
  }

  ghost predicate OrderedClasses(env: Env) {
    forall cls: string :: OrderedFields(env, env(cls))
  }

  ghost predicate OrderedFields(env: Env, fields: seq<Field>) {
    forall i :: 0 <= i < |fields| ==> Ordered(env, fields[i].ann)
  }

  lemma {:induction false} OrderedIsFaithful(env: Env, tp: Ann, v: Value)
    requires OrderedClasses(env) && Ordered(env, tp) && Typed(env, tp, v)
    ensures Faithful(env, tp, v)
    decreases v, tp
  {
    if tp.TUnion? {
      var m :| 0 <= m < |tp.arms| && Typed(env, tp.arms[m], v);
      var k := FirstTyped(env, tp.arms, v, m);
      OrderedIsFaithful(env, tp.arms[k], v);
      forall j | 0 <= j < k
        ensures Refuses(env, tp.arms[j], v)
      {
        assert Apart(env, tp.arms[j], tp.arms[k]);
      }
      assert RefusedBefore(env, tp.arms, k, v);
    } else if Composite(tp) {
      PartsTyped(env, tp, v);
      forall i | 0 <= i < Size(v)
        ensures Faithful(env, PartAnn(env, tp, i), Held(v, i))
      {
        if tp.TData? {
          assert OrderedFields(env, env(tp.cls));
        }
        OrderedIsFaithful(env, PartAnn(env, tp, i), Held(v, i));
      }
      FaithfulByParts(env, tp, v);
    }
  }

  lemma FirstTyped(env: Env, arms: seq<Ann>, v: Value, m: nat) returns (k: nat)
    requires m < |arms| && Typed(env, arms[m], v)
    ensures k <= m && Typed(env, arms[k], v) && forall j :: 0 <= j < k ==> !Typed(env, arms[j], v)
  {
    if j :| 0 <= j < m && Typed(env, arms[j], v) {
      k := FirstTyped(env, arms, v, j);
    } else {
      k := m;
    }
  }

  /** With stricter arms first everywhere, decoding undoes encoding on every well-typed value. */
  lemma OrderedRoundTrip(env: Env, tp: Ann, v: Value)
    requires Declared(env) && OrderedClasses(env) && Ordered(env, tp) && Typed(env, tp, v)
    ensures Encode(v).Ok? && Decode(env, tp, Encode(v).value) == Ok(v)
  {
    OrderedIsFaithful(env, tp, v);
    RoundTrip(env, tp, v);
  }

  /** ...and whatever decodes is encoded to something that decodes the same. */
  lemma DecodeIsStable(env: Env, tp: Ann, data: Json)
    requires Declared(env) && OrderedClasses(env) && Ordered(env, tp) && Decode(env, tp, data).Ok?
    ensures var v := Decode(env, tp, data).value;
            Encode(v).Ok? && Decode(env, tp, Encode(v).value) == Ok(v)
  {
    DecodeTyped(env, tp, data);
    OrderedRoundTrip(env, tp, Decode(env, tp, data).value);
  }

  /** What can be told from two annotations alone: a strict scalar first, no shape in common, or a telling field. */
  ghost predicate Separate(env: Env, a: Ann, b: Ann) {
    || a.TNull? || a.TBool? || a.TInt? || a.TStr? || a.TLit?
    || (forall s: Shape :: Takes(a, s) ==> !Takes(b, s))
    || (a.TData? && b.TData? && (Extra(env(a.cls), env(b.cls)) || Lacking(env(a.cls), env(b.cls))))
  }

  /** ``b`` has a field ``a`` does not. */
  predicate Extra(a: seq<Field>, b: seq<Field>) {
    exists i :: 0 <= i < |b| && forall j :: 0 <= j < |a| ==> a[j].name != b[i].name
  }

  /** ``a`` needs a field ``b`` does not have. */
  predicate Lacking(a: seq<Field>, b: seq<Field>) {
    exists i :: 0 <= i < |a| && a[i].default.None? && forall j :: 0 <= j < |b| ==> b[j].name != a[i].name
  }

  lemma ConformsShape(env: Env, tp: Ann, data: Json)
    requires Conforms(env, tp, data)
    ensures Takes(tp, ShapeOf(data))
  {
    DecodesWhatConforms(env, tp, data);
  }

  lemma {:induction false} EncodedShape(env: Env, tp: Ann, v: Value)
    requires Typed(env, tp, v) && Encode(v).Ok?
    ensures Takes(tp, ShapeOf(Encode(v).value))
    decreases tp
  {
    if tp.TUnion? {
      var k :| 0 <= k < |tp.arms| && Typed(env, tp.arms[k], v);
      EncodedShape(env, tp.arms[k], v);
    }
  }

  lemma SeparateIsApart(env: Env, a: Ann, b: Ann)
    requires Separate(env, a, b)
    ensures Apart(env, a, b)
  {
    forall v: Value | Typed(env, b, v) && !Refuses(env, a, v)
      ensures Typed(env, a, v)
    {
      var j := Encode(v).value;
      if !(a.TNull? || a.TBool? || a.TInt? || a.TStr? || a.TLit?) {
        EncodedShape(env, b, v);
        ConformsShape(env, a, j);
        FieldsTell(env, a.cls, b.cls, v);
      }
    }
  }

  lemma NamesKept(env: Env, cls: string, v: Value) returns (entries: OrderedMap<string, Json>)
    requires Typed(env, TData(cls), v) && Encode(v).Ok?
    ensures Encode(v) == Ok(JObj(entries)) && |entries| == |env(cls)|
    ensures forall i :: 0 <= i < |entries| ==> entries[i].0 == env(cls)[i].name
  {
    entries := Encode(v).value.entries;
  }

  lemma FieldsTell(env: Env, a: string, b: string, v: Value)
    requires Typed(env, TData(b), v) && Encode(v).Ok?
    requires Extra(env(a), env(b)) || Lacking(env(a), env(b))
    ensures Refuses(env, TData(a), v)
  {
    hide Encode, Typed;
    var entries := NamesKept(env, b, v);
    if Extra(env(a), env(b)) {
      var i :| 0 <= i < |env(b)| && forall j :: 0 <= j < |env(a)| ==> env(a)[j].name != env(b)[i].name;
      assert entries[i] in entries;
    } else {
      var i :| 0 <= i < |env(a)| && env(a)[i].default.None? && forall j :: 0 <= j < |env(b)| ==> env(b)[j].name != env(a)[i].name;
      assert !Has(entries, env(a)[i].name);
    }
  }

  /** A float arm before an int arm takes the int's encoding: ``2`` comes back as ``2.0``. */
  lemma LooserArmFirst(env: Env)
    ensures var tp, v := TUnion([TFloat, TInt]), VAtom(Int(2));
            && Typed(env, tp, v) && !Faithful(env, tp, v)
            && Encode(v).Ok? && Decode(env, tp, Encode(v).value) == Ok(VAtom(Float(Finite(2.0))))
  {
    var arms, v := [TFloat, TInt], VAtom(Int(2));
    assert Typed(env, arms[1], v) && !Typed(env, arms[0], v) && !Refuses(env, arms[0], v);
    assert !RefusedBefore(env, arms, 1, v) by {
      assert !Refuses(env, arms[0], v);
    }
    UnionIsFirst(env, arms, JAtom(Int(2)), 0);
  }

  // ----- the loops

  /** ``_encode`` on a mapping. */
  method EncodeMapping(entries: seq<(Key, Value)>) returns (r: Result<Json, Error>)
    ensures r == Encode(VDict(entries))
  {
    var out: seq<Json> := [];
    for i := 0 to |entries|
      invariant |out| == i
      invariant forall k :: 0 <= k < i ==> Encodings(VDict(entries))[k] == Ok(out[k])
    {
      if entries[i].0.Opaque? {
        FirstError(Encodings(VDict(entries)), i, out);
        return Err(Error([], KeyNotString));
      }
      var next := Under(Entry(entries[i].0.s), Encode(entries[i].1));
      assert next == Encodings(VDict(entries))[i];
      if next.Err? {
        FirstError(Encodings(VDict(entries)), i, out);
        return Err(next.error);
      }
      out := out + [next.value];
    }
    CollectIs(Encodings(VDict(entries)), out);
    r := Ok(JObj(Texts(entries, out)));
  }

  lemma {:induction false} FirstError<T>(rs: seq<Result<T, Error>>, i: nat, xs: seq<T>)
    requires i < |rs| && |xs| == i && rs[i].Err? && forall k :: 0 <= k < i ==> rs[k] == Ok(xs[k])
    ensures Collect(rs) == Err(rs[i].error)
  {
    if i > 0 {
      FirstError(rs[1..], i - 1, xs[1..]);
    }
  }

  /** ``_decode``'s choice among the arms of a union. */
  method DecodeUnion(env: Env, arms: seq<Ann>, data: Json) returns (r: Result<Value, Error>)
    requires Takes(TUnion(arms), ShapeOf(data))
    ensures r == Decode(env, TUnion(arms), data)
    decreases data, TUnion(arms), 0
  {
    var fit := Fitting(arms, ShapeOf(data));
    ghost var tries := Tries(env, TUnion(arms), data);
    if |fit| == 1 {
      r := DecodeJson(env, arms[fit[0]], data);
      return;
    }
    var failures: seq<Reason> := [];
    for i := 0 to |fit|
      invariant |failures| == i
      invariant forall k :: 0 <= k < i ==> tries[k].Err? && tries[k].error.reason == failures[k]
    {
      r := DecodeJson(env, arms[fit[i]], data);
      assert r == tries[i];
      if r.Ok? {
        FirstOkAt(tries, i);
        return;
      }
      failures := failures + [r.error.reason];
    }
    assert failures == seq(|tries|, i requires 0 <= i < |tries| => if tries[i].Err? then tries[i].error.reason else NoJsonForm);
    r := Err(Error([], NoArm(failures)));
  }

  /** ``_decode_dataclass``. */
  method DecodeDataclass(env: Env, cls: string, entries: OrderedMap<string, Json>) returns (r: Result<Value, Error>)
    ensures r == Decode(env, TData(cls), JObj(entries))
    decreases JObj(entries), TData(cls), 0
  {
    var fields, data := env(cls), JObj(entries);
    var unknown := Unknown(fields, entries);
    if unknown != {} {
      return Err(Error([], UnknownFields(unknown)));
    }
    ghost var parts := Parts(env, TData(cls), data);
    var values: seq<Value> := [];
    for i := 0 to |fields|
      invariant |values| == i
      invariant forall k :: 0 <= k < i ==> parts[k] == Ok(values[k])
    {
      var next: Result<Value, Error>;
      var x := Lookup(entries, fields[i].name);
      if x.Some? {
        assert x == PartOf(env, TData(cls), data, i);
        next := DecodeJson(env, fields[i].ann, x.value);
        next := Under(Attr(fields[i].name), next);
      } else if fields[i].default.Some? {
        next := Ok(fields[i].default.value);
      } else {
        next := Err(Error([], MissingField(fields[i].name)));
      }
      assert next == parts[i];
      if next.Err? {
        FirstError(parts, i, values);
        return Err(next.error);
      }
      values := values + [next.value];
    }
    CollectIs(parts, values);
    r := Ok(VData(cls, Filled(fields, values)));
  }

  /** ``_decode``: unions and dataclasses by their loops. */
  method DecodeJson(env: Env, tp: Ann, data: Json) returns (r: Result<Value, Error>)
    ensures r == Decode(env, tp, data)
    decreases data, tp, 1
  {
    if tp.TUnion? && Takes(tp, ShapeOf(data)) {
      r := DecodeUnion(env, tp.arms, data);
    } else if tp.TData? && data.JObj? {
      r := DecodeDataclass(env, tp.cls, data.entries);
    } else {
      r := Decode(env, tp, data);
    }
  }
}
