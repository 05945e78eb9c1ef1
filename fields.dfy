/**
 * Per-field processing after decoding: environment keys, conversion of a
 * string to a typed value (setValue and setSlice), the four steps of
 * processField, and the error map of processCfg. A field's value is a
 * `Value`; writes through reflection are modelled as returning the new value.
 */
module Fields {
  import opened Outcomes
  import opened Text
  import opened Numbers

  /** The kinds setValue distinguishes; `OtherKind` is any kind it does not convert (interface, map, ...). */
  datatype Kind =
    | PtrKind(elem: Kind)
    | SliceKind(elem: Kind)
    | BoolKind
    | IntKind
    | DurationKind
    | UintKind
    | FloatKind
    | StringKind
    | TimeKind
    | StructKind
    | OtherKind(name: string)

  /** A field value. Durations and times are kept as whole numbers (nanoseconds, an instant). */
  datatype Value =
    | NilPtr(elemKind: Kind)
    | Ptr(target: Value)
    | Slice(elemKind: Kind, items: seq<Value>)
    | BoolVal(b: bool)
    | IntVal(i: int)
    | DurationVal(ns: int)
    | UintVal(n: nat)
    | FloatVal(f: real)
    | StringVal(s: string)
    | TimeVal(t: int)
    | StructVal
    | OtherVal(kindName: string)

  function KindOf(v: Value): Kind {
    match v
    case NilPtr(e) => PtrKind(e)
    case Ptr(t) => PtrKind(KindOf(t))
    case Slice(e, _) => SliceKind(e)
    case BoolVal(_) => BoolKind
    case IntVal(_) => IntKind
    case DurationVal(_) => DurationKind
    case UintVal(_) => UintKind
    case FloatVal(_) => FloatKind
    case StringVal(_) => StringKind
    case TimeVal(_) => TimeKind
    case StructVal => StructKind
    case OtherVal(name) => OtherKind(name)
  }

  /** The zero value of a kind (what reflect.New and reflect.MakeSlice start from). */
  function Zero(k: Kind): (v: Value)
    ensures KindOf(v) == k
  {
    match k
    case PtrKind(e) => NilPtr(e)
    case SliceKind(e) => Slice(e, [])
    case BoolKind => BoolVal(false)
    case IntKind => IntVal(0)
    case DurationKind => DurationVal(0)
    case UintKind => UintVal(0)
    case FloatKind => FloatVal(0.0)
    case StringKind => StringVal("")
    case TimeKind => TimeVal(0)
    case StructKind => StructVal
    case OtherKind(name) => OtherVal(name)
  }

  /** The name reflect gives a kind in "unsupported type" errors. */
  function KindName(k: Kind): string {
    match k
    case PtrKind(_) => "ptr"
    case SliceKind(_) => "slice"
    case BoolKind => "bool"
    case IntKind => "int"
    case DurationKind => "int64"
    case UintKind => "uint"
    case FloatKind => "float64"
    case StringKind => "string"
    case TimeKind => "struct"
    case StructKind => "struct"
    case OtherKind(name) => name
  }

  /**
   * What the conversions rely on outside this model: isZero, stringSlice,
   * strconv.ParseFloat, time.ParseDuration and time.Parse(layout, text).
   */
  datatype Conversions = Conversions(
    isZero: Value -> bool,
    stringSlice: string -> seq<string>,
    parseFloat: string -> Result<real, string>,
    parseDuration: string -> Result<int, string>,
    parseTime: (string, string) -> Result<int, string>)

  datatype SetError = Number(cause: NumError) | Conversion(message: string) | Unsupported(kind: string)

  /** The value after a setValue call, and its error if it failed. */
  datatype Assigned = Assigned(value: Value, error: Option<SetError>)

  /**
   * setValue(cur, val): convert `val` according to the kind of `cur`. A nil
   * pointer is allocated first, and stays allocated even if setting its
   * element fails; every other failure leaves the value as it was.
   */
  function Assign(c: Conversions, layout: string, cur: Value, val: string): Assigned
    decreases KindOf(cur), 0, 0
  {
    match cur
    case NilPtr(e) =>
      var inner := Assign(c, layout, Zero(e), val);
      Assigned(Ptr(inner.value), inner.error)
    case Ptr(t) =>
      var inner := Assign(c, layout, t, val);
      Assigned(Ptr(inner.value), inner.error)
    case Slice(e, _) =>
      match AssignAll(c, layout, e, c.stringSlice(val)) {
      case Ok(items) => Assigned(Slice(e, items), None)
      case Err(err) => Assigned(cur, Some(err))
      }
    case BoolVal(_) =>
      match ParseBool(val) {
      case Ok(b) => Assigned(BoolVal(b), None)
      case Err(err) => Assigned(cur, Some(Number(err)))
      }
    case IntVal(_) =>
      match ParseInt(val) {
      case Ok(i) => Assigned(IntVal(i), None)
      case Err(err) => Assigned(cur, Some(Number(err)))
      }
    case DurationVal(_) =>
      match c.parseDuration(val) {
      case Ok(d) => Assigned(DurationVal(d), None)
      case Err(msg) => Assigned(cur, Some(Conversion(msg)))
      }
    case UintVal(_) =>
      match ParseUint(val) {
      case Ok(n) => Assigned(UintVal(n), None)
      case Err(err) => Assigned(cur, Some(Number(err)))
      }
    case FloatVal(_) =>
      match c.parseFloat(val) {
      case Ok(f) => Assigned(FloatVal(f), None)
      case Err(msg) => Assigned(cur, Some(Conversion(msg)))
      }
    case StringVal(_) => Assigned(StringVal(val), None)
    case TimeVal(_) =>
      match c.parseTime(layout, val) {
      case Ok(t) => Assigned(TimeVal(t), None)
      case Err(msg) => Assigned(cur, Some(Conversion(msg)))
      }
    case StructVal => Assigned(cur, Some(Unsupported(KindName(StructKind))))
    case OtherVal(name) => Assigned(cur, Some(Unsupported(name)))
  }

  /**
   * The element loop of setSlice: each text is set into a fresh zero
   * element; the first failure is the result.
   */
  function AssignAll(c: Conversions, layout: string, e: Kind, ss: seq<string>): Result<seq<Value>, SetError>
    decreases e, 1, |ss|
  {
    if ss == [] then Ok([])
    else match AssignAll(c, layout, e, ss[..|ss| - 1])
      case Err(err) => Err(err)
      case Ok(items) =>
        var last := Assign(c, layout, Zero(e), ss[|ss| - 1]);
        if last.error.Some? then Err(last.error.value) else Ok(items + [last.value])
  }

  /** setValue, writing into `cur`; the new value is returned. */
  method SetValue(c: Conversions, layout: string, cur: Value, val: string) returns (r: Assigned)
    ensures r == Assign(c, layout, cur, val)
    decreases KindOf(cur), 0, 0
  {
    match cur {
      case NilPtr(e) =>
        var inner := SetValue(c, layout, Zero(e), val);
        r := Assigned(Ptr(inner.value), inner.error);
      case Ptr(t) =>
        var inner := SetValue(c, layout, t, val);
        r := Assigned(Ptr(inner.value), inner.error);
      case Slice(e, _) =>
        var items := SetSlice(c, layout, e, val);
        if items.Err? {
          r := Assigned(cur, Some(items.error));
        } else {
          r := Assigned(Slice(e, items.value), None);
        }
      case _ => r := Assign(c, layout, cur, val);
    }
  }

  /** setSlice: the elements of the new slice, or the first element error (then nothing is assigned). */
  method SetSlice(c: Conversions, layout: string, e: Kind, val: string) returns (r: Result<seq<Value>, SetError>)
    ensures r == AssignAll(c, layout, e, c.stringSlice(val))
    decreases e, 1, 0
  {
    var ss := c.stringSlice(val);
    var items: seq<Value> := [];
    for i := 0 to |ss|
      invariant AssignAll(c, layout, e, ss[..i]) == Ok(items)
    {
      var elem := SetValue(c, layout, Zero(e), ss[i]);
      assert ss[..i + 1][..i] == ss[..i];
      if elem.error.Some? {
        assert AssignAll(c, layout, e, ss[..i + 1]).Err?;
        AssignAllStops(c, layout, e, ss, i + 1);
        return Err(elem.error.value);
      }
      items := items + [elem.value];
    }
    assert ss[..|ss|] == ss;
    r := Ok(items);
  }

  /** Once an element fails, the whole slice fails with that element's error. */
  lemma {:induction false} AssignAllStops(c: Conversions, layout: string, e: Kind, ss: seq<string>, k: nat)
    requires k <= |ss| && AssignAll(c, layout, e, ss[..k]).Err?
    ensures AssignAll(c, layout, e, ss) == AssignAll(c, layout, e, ss[..k])
    decreases |ss| - k
  {
    if k == |ss| {
      assert ss[..k] == ss;
    } else {
      var p := ss[..k + 1];
      assert p[..k] == ss[..k];
      AssignAllStops(c, layout, e, ss, k + 1);
    }
  }

  /** Setting never changes a value's kind (reflection cannot change a field's type). */
  lemma {:induction false} AssignKeepsKind(c: Conversions, layout: string, cur: Value, val: string)
    ensures KindOf(Assign(c, layout, cur, val).value) == KindOf(cur)
    decreases KindOf(cur), 0, 0
  {
    match cur {
      case NilPtr(e) => AssignKeepsKind(c, layout, Zero(e), val);
      case Ptr(t) => AssignKeepsKind(c, layout, t, val);
      case _ =>
    }
  }

  /** A value with every nil pointer on its pointer chain allocated. */
  function Allocated(v: Value): Value
    decreases KindOf(v)
  {
    match v
    case NilPtr(e) => Ptr(Allocated(Zero(e)))
    case Ptr(t) => Ptr(Allocated(t))
    case _ => v
  }

  /** A failed set changes nothing, except that the nil pointers on the way stay allocated. */
  lemma {:induction false} AssignFailureUnchanged(c: Conversions, layout: string, cur: Value, val: string)
    ensures Assign(c, layout, cur, val).error.Some? ==> Assign(c, layout, cur, val).value == Allocated(cur)
    decreases KindOf(cur)
  {
    match cur {
      case NilPtr(e) => AssignFailureUnchanged(c, layout, Zero(e), val);
      case Ptr(t) => AssignFailureUnchanged(c, layout, t, val);
      case _ =>
    }
  }

  /** A nil pointer is allocated with a zero element, and the element is then set. */
  lemma AssignNilPointer(c: Conversions, layout: string, e: Kind, val: string)
    ensures Assign(c, layout, NilPtr(e), val) ==
      var inner := Assign(c, layout, Zero(e), val); Assigned(Ptr(inner.value), inner.error)
    ensures e == IntKind && ParseInt(val).Ok? ==>
      Assign(c, layout, NilPtr(e), val) == Assigned(Ptr(IntVal(ParseInt(val).value)), None)
  {
  }

  /** Scalars: the string is taken as it is; booleans and 64-bit integers are parsed by strconv. */
  lemma AssignScalars(c: Conversions, layout: string, cur: Value, val: string)
    ensures cur.StringVal? ==> Assign(c, layout, cur, val) == Assigned(StringVal(val), None)
    ensures cur.BoolVal? ==> (Assign(c, layout, cur, val).error.None? <==> ParseBool(val).Ok?)
    ensures cur.BoolVal? && ParseBool(val).Ok? ==> Assign(c, layout, cur, val).value == BoolVal(ParseBool(val).value)
    ensures cur.IntVal? ==> (Assign(c, layout, cur, val).error.None? <==> ParseInt(val).Ok?)
    ensures cur.IntVal? && ParseInt(val).Ok? ==> Assign(c, layout, cur, val).value == IntVal(ParseInt(val).value)
    ensures cur.UintVal? ==> (Assign(c, layout, cur, val).error.None? <==> ParseUint(val).Ok?)
    ensures cur.UintVal? && ParseUint(val).Ok? ==> Assign(c, layout, cur, val).value == UintVal(ParseUint(val).value)
  {
  }

  /** Round trips: the decimal text of a 64-bit value, or "true"/"false", sets exactly that value. */
  lemma AssignFormatted(c: Conversions, layout: string, i: int, n: nat, b: bool)
    requires MinInt64 <= i <= MaxInt64 && n <= MaxUint64
    ensures Assign(c, layout, IntVal(0), IntToString(i)) == Assigned(IntVal(i), None)
    ensures Assign(c, layout, UintVal(0), NatToString(n)) == Assigned(UintVal(n), None)
    ensures Assign(c, layout, BoolVal(false), FormatBool(b)) == Assigned(BoolVal(b), None)
  {
    ParseIntFormat(i);
    ParseUintFormat(n);
    ParseBoolFormat(b);
  }

  /** A negative number is never an unsigned value: the set fails and the field keeps its value. */
  lemma AssignNegativeUint(c: Conversions, layout: string, n: nat, digits: string)
    ensures Assign(c, layout, UintVal(n), "-" + digits) == Assigned(UintVal(n), Some(Number(Syntax("-" + digits))))
  {
    ParseUintRejectsSign("-" + digits);
    var s := "-" + digits;
    assert !IsDigit(s[0]);
  }

  /** Struct kinds other than time, and kinds setValue does not know, are rejected. */
  lemma AssignUnsupported(c: Conversions, layout: string, name: string, val: string)
    ensures Assign(c, layout, StructVal, val) == Assigned(StructVal, Some(Unsupported("struct")))
    ensures Assign(c, layout, OtherVal(name), val) == Assigned(OtherVal(name), Some(Unsupported(name)))
  {
  }

  /** The elements of a set slice: one per text, each set from a zero element. */
  lemma {:induction false} AssignAllSpec(c: Conversions, layout: string, e: Kind, ss: seq<string>)
    ensures AssignAll(c, layout, e, ss).Ok? <==>
      forall i :: 0 <= i < |ss| ==> Assign(c, layout, Zero(e), ss[i]).error.None?
    ensures AssignAll(c, layout, e, ss).Ok? ==>
      |AssignAll(c, layout, e, ss).value| == |ss| &&
      forall i :: 0 <= i < |ss| ==> AssignAll(c, layout, e, ss).value[i] == Assign(c, layout, Zero(e), ss[i]).value
    decreases |ss|
  {
    if ss != [] {
      var init := ss[..|ss| - 1];
      AssignAllSpec(c, layout, e, init);
      assert forall i :: 0 <= i < |init| ==> init[i] == ss[i];
    }
  }

  /** A slice is all or nothing: if one element fails, the slice is left as it was. */
  lemma SliceAllOrNothing(c: Conversions, layout: string, e: Kind, items: seq<Value>, val: string, i: nat)
    requires i < |c.stringSlice(val)| && Assign(c, layout, Zero(e), c.stringSlice(val)[i]).error.Some?
    ensures Assign(c, layout, Slice(e, items), val).value == Slice(e, items)
    ensures Assign(c, layout, Slice(e, items), val).error.Some?
  {
    AssignAllSpec(c, layout, e, c.stringSlice(val));
  }

  /** A slice whose text splits into one integer, such as a bare `5`, becomes a one-element slice. */
  lemma SliceOfOne(c: Conversions, layout: string, items: seq<Value>, val: string, i: int)
    requires c.stringSlice(val) == [val] && ParseInt(val) == Ok(i)
    ensures Assign(c, layout, Slice(IntKind, items), val) == Assigned(Slice(IntKind, [IntVal(i)]), None)
  {
    var ss := [val];
    assert ss[..|ss| - 1] == [];
    assert AssignAll(c, layout, IntKind, ss[..|ss| - 1]) == Ok([]);
    assert [] + [IntVal(i)] == [IntVal(i)];
    assert Assign(c, layout, Zero(IntKind), val) == Assigned(IntVal(i), None);
    assert AssignAll(c, layout, IntKind, ss) == Ok([IntVal(i)]);
  }

  /** setDefaultValue: a bool field cannot take a default; any other field is set as by setValue. */
  function SetDefault(c: Conversions, layout: string, cur: Value, val: string): (r: Assigned)
    ensures cur.BoolVal? ==> r == Assigned(cur, Some(Unsupported("bool")))
    ensures !cur.BoolVal? ==> r == Assign(c, layout, cur, val)
  {
    if KindOf(cur) == BoolKind then Assigned(cur, Some(Unsupported(KindName(BoolKind))))
    else Assign(c, layout, cur, val)
  }

  /** The rewrite of one key character: '.' and '[' become '_', ']' is dropped. */
  function KeyChar(ch: char): string {
    if ch == '.' || ch == '[' then "_" else if ch == ']' then "" else [ch]
  }

  /** strings.NewReplacer(".", "_", "[", "_", "]", "").Replace. */
  function KeyPath(key: string): string
    decreases |key|
  {
    if key == [] then [] else KeyChar(key[0]) + KeyPath(key[1..])
  }

  /** formatEnvKey: `loggers[0].level` becomes `LOGGERS_0_LEVEL`, with `PREFIX_` in front for a prefix. */
  function FormatEnvKey(prefix: string, key: string): string {
    var k := KeyPath(key);
    ToUpper(if prefix != "" then prefix + "_" + k else k)
  }

  lemma {:induction false} KeyPathConcat(a: string, b: string)
    ensures KeyPath(a + b) == KeyPath(a) + KeyPath(b)
    decreases |a|
  {
    if a != [] {
      KeyPathConcat(a[1..], b);
      assert (a + b)[1..] == a[1..] + b;
    } else {
      assert a + b == b;
    }
  }

  /** After the rewrite no '.', '[' or ']' is left, and a key without them is untouched. */
  lemma {:induction false} KeyPathClean(key: string)
    ensures '.' !in KeyPath(key) && '[' !in KeyPath(key) && ']' !in KeyPath(key)
    ensures '.' !in key && '[' !in key && ']' !in key ==> KeyPath(key) == key
    ensures |KeyPath(key)| <= |key|
    decreases |key|
  {
    if key != [] {
      KeyPathClean(key[1..]);
      assert key == [key[0]] + key[1..];
    }
  }

  /** A separator character between two parts is rewritten on its own. */
  lemma KeyPathAround(a: string, ch: char, b: string)
    ensures KeyPath(a + [ch] + b) == KeyPath(a) + KeyChar(ch) + KeyPath(b)
  {
    KeyPathConcat(a, [ch] + b);
    assert a + [ch] + b == a + ([ch] + b);
    assert ([ch] + b)[1..] == b;
  }

  /** A field path `a.b` becomes `a_b`, and an index `a[i]` becomes `a_i`. */
  lemma KeyPathSeparators(a: string, b: string)
    ensures KeyPath(a + "." + b) == KeyPath(a) + "_" + KeyPath(b)
    ensures KeyPath(a + "[" + b + "]") == KeyPath(a) + "_" + KeyPath(b)
  {
    KeyPathAround(a, '.', b);
    KeyPathAround(a, '[', b + "]");
    assert a + "[" + b + "]" == a + ['['] + (b + "]");
    KeyPathConcat(b, "]");
  }

  /**
   * The key is the rewritten path, upper-cased, behind the upper-cased
   * prefix and '_' when there is a prefix; it holds no lower-case letter.
   */
  lemma FormatEnvKeySpec(prefix: string, key: string)
    ensures prefix == "" ==> FormatEnvKey(prefix, key) == ToUpper(KeyPath(key))
    ensures prefix != "" ==> FormatEnvKey(prefix, key) == ToUpper(prefix) + "_" + ToUpper(KeyPath(key))
    ensures forall i :: 0 <= i < |FormatEnvKey(prefix, key)| ==> !('a' <= FormatEnvKey(prefix, key)[i] <= 'z')
  {
    var k := KeyPath(key);
    if prefix != "" {
      ToUpperConcat(prefix + "_", k);
      ToUpperConcat(prefix, "_");
      assert ToUpper("_") == "_";
    }
    ToUpperNormal(if prefix != "" then prefix + "_" + k else k);
  }

  /** A leaf field of the configuration struct, as flattenCfg gives it. */
  datatype Field = Field(path: string, required: bool, setDefault: bool, defaultVal: string, value: Value)

  /** The loader settings a field's processing reads. */
  datatype Binding = Binding(useEnv: bool, envPrefix: string, timeLayout: string)

  datatype FieldError =
    | RequiredWithDefault
    | EnvFailed(cause: SetError)
    | RequiredFailed
    | DefaultFailed(cause: SetError)

  /** The field after processing, and its error if it failed. */
  datatype Processed = Processed(field: Field, error: Option<FieldError>)

  /** setFromEnv: the variable named by the formatted path, if set, is set into the field. */
  function FromEnv(b: Binding, c: Conversions, env: map<string, string>, f: Field): Assigned {
    var key := FormatEnvKey(b.envPrefix, f.path);
    if key in env then Assign(c, b.timeLayout, f.value, env[key]) else Assigned(f.value, None)
  }

  /**
   * processField: reject required-with-default; then the environment
   * overrides the value; then a zero required field fails; then a zero
   * field with a default takes the default.
   */
  function ProcessField(b: Binding, c: Conversions, env: map<string, string>, f: Field): Processed {
    if f.required && f.setDefault then Processed(f, Some(RequiredWithDefault))
    else
      var fromEnv := if b.useEnv then FromEnv(b, c, env, f) else Assigned(f.value, None);
      var g := f.(value := fromEnv.value);
      if fromEnv.error.Some? then Processed(g, Some(EnvFailed(fromEnv.error.value)))
      else if f.required && c.isZero(g.value) then Processed(g, Some(RequiredFailed))
      else if f.setDefault && c.isZero(g.value) then
        var d := SetDefault(c, b.timeLayout, g.value, f.defaultVal);
        if d.error.Some? then Processed(g.(value := d.value), Some(DefaultFailed(d.error.value)))
        else Processed(g.(value := d.value), None)
      else Processed(g, None)
  }

  /** Required together with a default is an error whatever the value, and the field is left alone. */
  lemma RequiredWithDefaultRejected(b: Binding, c: Conversions, env: map<string, string>, f: Field)
    requires f.required && f.setDefault
    ensures ProcessField(b, c, env, f) == Processed(f, Some(RequiredWithDefault))
  {
  }

  /** A set variable overrides the field even when it already has a value; a bad one is an error. */
  lemma EnvOverrides(b: Binding, c: Conversions, env: map<string, string>, f: Field)
    requires b.useEnv && !(f.required && f.setDefault)
    requires FormatEnvKey(b.envPrefix, f.path) in env
    ensures var a := Assign(c, b.timeLayout, f.value, env[FormatEnvKey(b.envPrefix, f.path)]);
      && (a.error.Some? ==> ProcessField(b, c, env, f) == Processed(f.(value := a.value), Some(EnvFailed(a.error.value))))
      && (a.error.None? && !c.isZero(a.value) ==> ProcessField(b, c, env, f) == Processed(f.(value := a.value), None))
  {
  }

  /** Without the environment (or without the variable), the field's own value is what is checked. */
  lemma NoEnvNoChange(b: Binding, c: Conversions, env: map<string, string>, f: Field)
    requires !b.useEnv || FormatEnvKey(b.envPrefix, f.path) !in env
    requires !(f.required && f.setDefault)
    ensures f.required ==> (ProcessField(b, c, env, f).error == Some(RequiredFailed) <==> c.isZero(f.value))
    ensures !c.isZero(f.value) ==> ProcessField(b, c, env, f) == Processed(f, None)
  {
  }

  /** A default is used only for a zero value, so a value is never overwritten by its default. */
  lemma DefaultOnlyWhenZero(b: Binding, c: Conversions, env: map<string, string>, f: Field)
    requires f.setDefault && !f.required
    ensures var p := ProcessField(b, c, env, f);
      var v := if b.useEnv then FromEnv(b, c, env, f) else Assigned(f.value, None);
      v.error.None? ==>
        && (!c.isZero(v.value) ==> p == Processed(f.(value := v.value), None))
        && (c.isZero(v.value) && !v.value.BoolVal? ==>
              p.field.value == Assign(c, b.timeLayout, v.value, f.defaultVal).value)
  {
  }

  /** A bool field with a default and a zero value fails, and keeps its value. */
  lemma BoolDefaultRejected(b: Binding, c: Conversions, env: map<string, string>, f: Field)
    requires f.setDefault && !f.required && f.value.BoolVal? && c.isZero(f.value)
    requires !b.useEnv
    ensures ProcessField(b, c, env, f) == Processed(f, Some(DefaultFailed(Unsupported("bool"))))
  {
  }

  /** Processing changes only the field's value, and only to a value of the same kind. */
  lemma ProcessFieldFrame(b: Binding, c: Conversions, env: map<string, string>, f: Field)
    ensures var g := ProcessField(b, c, env, f).field;
      g.path == f.path && g.required == f.required && g.setDefault == f.setDefault
      && g.defaultVal == f.defaultVal && KindOf(g.value) == KindOf(f.value)
  {
    if b.useEnv {
      var key := FormatEnvKey(b.envPrefix, f.path);
      if key in env {
        AssignKeepsKind(c, b.timeLayout, f.value, env[key]);
      }
    }
    var v := if b.useEnv then FromEnv(b, c, env, f) else Assigned(f.value, None);
    if !v.value.BoolVal? {
      AssignKeepsKind(c, b.timeLayout, v.value, f.defaultVal);
    }
  }

  /** The processed fields, one for one. */
  function ProcessedFields(b: Binding, c: Conversions, env: map<string, string>, fields: seq<Field>): (r: seq<Field>)
    ensures |r| == |fields|
    ensures forall i :: 0 <= i < |r| ==> r[i] == ProcessField(b, c, env, fields[i]).field
  {
    seq(|fields|, i requires 0 <= i < |fields| => ProcessField(b, c, env, fields[i]).field)
  }

  /** The fieldErrors map: each failing field's error under its path; a later field with the same path wins. */
  function ErrorsOf(b: Binding, c: Conversions, env: map<string, string>, fields: seq<Field>): map<string, FieldError>
    decreases |fields|
  {
    if fields == [] then map[]
    else
      var m := ErrorsOf(b, c, env, fields[..|fields| - 1]);
      var last := fields[|fields| - 1];
      var p := ProcessField(b, c, env, last);
      if p.error.Some? then m[last.path := p.error.value] else m
  }

  /** processCfg: every field is processed, and the errors are collected by path. */
  method ProcessCfg(b: Binding, c: Conversions, env: map<string, string>, fields: seq<Field>)
    returns (out: seq<Field>, errs: map<string, FieldError>)
    ensures out == ProcessedFields(b, c, env, fields)
    ensures errs == ErrorsOf(b, c, env, fields)
  {
    out := [];
    errs := map[];
    for i := 0 to |fields|
      invariant out == ProcessedFields(b, c, env, fields[..i])
      invariant errs == ErrorsOf(b, c, env, fields[..i])
    {
      var p := ProcessField(b, c, env, fields[i]);
      if p.error.Some? {
        errs := errs[fields[i].path := p.error.value];
      }
      out := out + [p.field];
      assert fields[..i + 1][..i] == fields[..i];
    }
    assert fields[..|fields|] == fields;
  }

  /**
   * A path is in the error map exactly when some field with that path
   * fails, and its error is that of the last such field.
   */
  lemma ErrorsOfSpec(b: Binding, c: Conversions, env: map<string, string>, fields: seq<Field>, path: string)
    ensures path in ErrorsOf(b, c, env, fields) <==>
      exists i :: 0 <= i < |fields| && fields[i].path == path && ProcessField(b, c, env, fields[i]).error.Some?
    ensures path in ErrorsOf(b, c, env, fields) ==>
      exists i :: 0 <= i < |fields| && fields[i].path == path
        && Some(ErrorsOf(b, c, env, fields)[path]) == ProcessField(b, c, env, fields[i]).error
        && forall j :: i < j < |fields| && fields[j].path == path ==> ProcessField(b, c, env, fields[j]).error.None?
  {
    ErrorsOfDomain(b, c, env, fields, path);
    if path in ErrorsOf(b, c, env, fields) {
      ErrorsOfValue(b, c, env, fields, path);
    }
  }

  /** The paths in the error map are those of the failing fields. */
  lemma {:induction false} ErrorsOfDomain(b: Binding, c: Conversions, env: map<string, string>, fields: seq<Field>, path: string)
    ensures path in ErrorsOf(b, c, env, fields) <==>
      exists i :: 0 <= i < |fields| && fields[i].path == path && ProcessField(b, c, env, fields[i]).error.Some?
    decreases |fields|
  {
    if fields != [] {
      var init := fields[..|fields| - 1];
      var k := |fields| - 1;
      ErrorsOfDomain(b, c, env, init, path);
      if fields[k].path == path && ProcessField(b, c, env, fields[k]).error.Some? {
      } else {
        if exists i :: 0 <= i < |fields| && fields[i].path == path && ProcessField(b, c, env, fields[i]).error.Some? {
          var i :| 0 <= i < |fields| && fields[i].path == path && ProcessField(b, c, env, fields[i]).error.Some?;
          assert init[i] == fields[i];
        }
        if exists i :: 0 <= i < |init| && init[i].path == path && ProcessField(b, c, env, init[i]).error.Some? {
          var i :| 0 <= i < |init| && init[i].path == path && ProcessField(b, c, env, init[i]).error.Some?;
          assert init[i] == fields[i];
        }
      }
    }
  }

  /** The error kept for a path is that of the last field with that path that fails. */
  lemma {:induction false} ErrorsOfValue(b: Binding, c: Conversions, env: map<string, string>, fields: seq<Field>, path: string)
    requires path in ErrorsOf(b, c, env, fields)
    ensures exists i :: 0 <= i < |fields| && fields[i].path == path
                      && Some(ErrorsOf(b, c, env, fields)[path]) == ProcessField(b, c, env, fields[i]).error
                      && forall j :: i < j < |fields| && fields[j].path == path ==> ProcessField(b, c, env, fields[j]).error.None?
    decreases |fields|
  {
    var init := fields[..|fields| - 1];
    var k := |fields| - 1;
    var m := ErrorsOf(b, c, env, fields);
    if fields[k].path == path && ProcessField(b, c, env, fields[k]).error.Some? {
      assert Some(m[path]) == ProcessField(b, c, env, fields[k]).error;
    } else {
      assert m == ErrorsOf(b, c, env, init) || m == ErrorsOf(b, c, env, init)[fields[k].path := ProcessField(b, c, env, fields[k]).error.value];
      assert path in ErrorsOf(b, c, env, init) && m[path] == ErrorsOf(b, c, env, init)[path];
      ErrorsOfValue(b, c, env, init, path);
      var i :| 0 <= i < |init| && init[i].path == path
        && Some(ErrorsOf(b, c, env, init)[path]) == ProcessField(b, c, env, init[i]).error
        && forall j :: i < j < |init| && init[j].path == path ==> ProcessField(b, c, env, init[j]).error.None?;
      assert init[i] == fields[i];
      forall j | i < j < |fields| && fields[j].path == path
        ensures ProcessField(b, c, env, fields[j]).error.None?
      {
        if j < k {
          assert init[j] == fields[j];
        }
      }
    }
  }

  /** processCfg reports nothing exactly when every field processes cleanly. */
  lemma ErrorsOfEmpty(b: Binding, c: Conversions, env: map<string, string>, fields: seq<Field>)
    ensures ErrorsOf(b, c, env, fields) == map[] <==>
      forall i :: 0 <= i < |fields| ==> ProcessField(b, c, env, fields[i]).error.None?
  {
    if ErrorsOf(b, c, env, fields) != map[] {
      var path :| path in ErrorsOf(b, c, env, fields);
      ErrorsOfSpec(b, c, env, fields, path);
    } else {
      forall i | 0 <= i < |fields| ensures ProcessField(b, c, env, fields[i]).error.None? {
        ErrorsOfSpec(b, c, env, fields, fields[i].path);
      }
    }
  }
}
