/**
 * The POST encoding of request parameters (index.js, deepConvertParamToString and
 * buildFormData): every key is kept, a scalar becomes its string, an array becomes the list
 * of its items' strings.
 *
 * `deepConvertParamToString` maps itself over an array as `param.map(this.deepConvertParamToString)`,
 * so inside that map `this` is undefined: a scalar item still converts (`toString` needs no
 * `this`), but an item that is itself an array reaches `this.deepConvertParamToString` and
 * throws a TypeError. The model keeps that behaviour.
 */
module Form {
  import opened Js
  import opened Params

  /** A form field: one string, a list of strings, or a read stream opened on a local path. */
  datatype Field = Text(text: string) | Texts(texts: seq<string>) | ReadStream(path: string)

  type FormFields = Assoc<Field>

  /** deepConvertParamToString called by `map`, with `this` undefined. */
  function ConvertUnbound(item: Value): Result<string>
  {
    match item
    case Scalar(_) => Ok(ToString(item))
    case List(_) => Err(TypeError)
  }

  /** `items.map(...)`: the items in order, stopping at the first that throws. */
  function ConvertItems(items: seq<Value>): (r: Result<seq<string>>)
    ensures r.Ok? <==> forall i :: 0 <= i < |items| ==> items[i].Scalar?
    ensures r.Err? ==> r.error == TypeError
    ensures r.Ok? ==> |r.value| == |items|
    ensures r.Ok? ==> forall i :: 0 <= i < |items| ==> r.value[i] == ToString(items[i])
  {
    if items == [] then Ok([])
    else match ConvertUnbound(items[0])
      case Err(e) => Err(e)
      case Ok(s) =>
        match ConvertItems(items[1..])
        case Err(e) => Err(e)
        case Ok(rest) =>
          assert forall i :: 1 <= i < |items| ==> items[i] == items[1..][i - 1];
          Ok([s] + rest)
  }

  /** deepConvertParamToString called as a method, with `this` bound to the client. */
  function DeepConvert(v: Value): (r: Result<Field>)
    ensures r.Err? <==> Nested(v)
    ensures r.Err? ==> r.error == TypeError
    ensures r.Ok? ==> !r.value.ReadStream? && (r.value.Text? <==> v.Scalar?)
  {
    match v
    case Scalar(_) => Ok(Text(ToString(v)))
    case List(items) =>
      match ConvertItems(items)
      case Ok(texts) => Ok(Texts(texts))
      case Err(e) => Err(e)
  }

  /** An array with an array among its items. */
  predicate Nested(v: Value)
  {
    v.List? && exists i :: 0 <= i < |v.items| && v.items[i].List?
  }

  /**
   * A scalar becomes its `toString()`; a flat array becomes a same-length list of its items'
   * strings; an array holding an array cannot be converted.
   */
  lemma DeepConvertShape(v: Value)
    ensures DeepConvert(v).Err? <==> Nested(v)
    ensures DeepConvert(v).Err? ==> DeepConvert(v).error == TypeError
    ensures v.Scalar? ==> DeepConvert(v) == Ok(Text(ToString(v)))
    ensures v.List? && !Nested(v) ==>
      DeepConvert(v).Ok? && DeepConvert(v).value.Texts? &&
      |DeepConvert(v).value.texts| == |v.items| &&
      forall i :: 0 <= i < |v.items| ==> DeepConvert(v).value.texts[i] == ToString(v.items[i])
  {
  }

  /** The loop of buildFormData from a partly filled form `acc` on. */
  function FormFold(acc: FormFields, ps: Params): (r: Result<FormFields>)
    decreases |ps|
    ensures r.Err? ==> r.error == TypeError
  {
    if ps == [] then Ok(acc)
    else match DeepConvert(ps[0].1)
      case Err(e) => Err(e)
      case Ok(f) => FormFold(SetKey(acc, ps[0].0, f), ps[1..])
  }

  /** The form buildFormData returns, or the error it throws. */
  function FormData(ps: Params): (r: Result<FormFields>)
    ensures r.Ok? <==> forall i :: 0 <= i < |ps| ==> !Nested(ps[i].1)
    ensures r.Err? ==> r.error == TypeError
  {
    FormFoldOk([], ps);
    FormFold([], ps)
  }

  /** buildFormData: copies every entry, converting its value. */
  method BuildFormData(params: Params) returns (r: Result<FormFields>)
    ensures r == FormData(params)
  {
    var formData: FormFields := [];
    var i := 0;
    while i < |params|
      invariant 0 <= i <= |params|
      invariant FormFold(formData, params[i..]) == FormData(params)
    {
      var f := DeepConvert(params[i].1);
      assert params[i..][0] == params[i] && params[i..][1..] == params[i + 1..];
      if f.Err? {
        return Err(f.error);
      }
      formData := SetKey(formData, params[i].0, f.value);
      i := i + 1;
    }
    return Ok(formData);
  }

  /** The keys of `acc` and of `ps` are distinct, within each and between them. */
  predicate Fresh(acc: FormFields, ps: Params)
  {
    DistinctKeys(acc) && DistinctKeys(ps) &&
    forall i, j :: 0 <= i < |acc| && 0 <= j < |ps| ==> acc[i].0 != ps[j].0
  }

  /** The fold fails, with a TypeError, exactly when some value is an array holding an array. */
  lemma {:induction false} FormFoldOk(acc: FormFields, ps: Params)
    decreases |ps|
    ensures FormFold(acc, ps).Ok? <==> forall i :: 0 <= i < |ps| ==> !Nested(ps[i].1)
    ensures FormFold(acc, ps).Err? ==> FormFold(acc, ps).error == TypeError
  {
    if ps != [] {
      DeepConvertShape(ps[0].1);
      var d := DeepConvert(ps[0].1);
      if d.Ok? {
        FormFoldOk(SetKey(acc, ps[0].0, d.value), ps[1..]);
        assert forall i :: 1 <= i < |ps| ==> ps[i] == ps[1..][i - 1];
      }
    }
  }

  /** `form` holds, from index `off` on, the parameters' keys with their converted values. */
  predicate ConvertedFrom(form: FormFields, off: nat, ps: Params)
  {
    |form| == off + |ps| &&
    forall i :: 0 <= i < |ps| ==>
      form[off + i].0 == ps[i].0 && DeepConvert(ps[i].1) == Ok(form[off + i].1)
  }

  /** On fresh keys the fold appends one converted entry per parameter, in order. */
  lemma {:induction false} FormFoldValue(acc: FormFields, ps: Params)
    requires Fresh(acc, ps)
    requires FormFold(acc, ps).Ok?
    decreases |ps|
    ensures ConvertedFrom(FormFold(acc, ps).value, |acc|, ps)
    ensures FormFold(acc, ps).value[..|acc|] == acc
  {
    if ps == [] {
      assert FormFold(acc, ps).value == acc;
    } else {
      var d := DeepConvert(ps[0].1);
      assert d.Ok?;
      var acc' := acc + [(ps[0].0, d.value)];
      FreshStep(acc, ps, d.value);
      assert FormFold(acc, ps) == FormFold(acc', ps[1..]);
      FormFoldValue(acc', ps[1..]);
      var form := FormFold(acc', ps[1..]).value;
      assert form[..|acc|] == form[..|acc'|][..|acc|];
      assert form[|acc|] == form[..|acc'|][|acc|];
      ConvertedCons(form, |acc|, ps);
    }
  }

  lemma ConvertedCons(form: FormFields, off: nat, ps: Params)
    requires ps != [] && off < |form|
    requires form[off].0 == ps[0].0 && DeepConvert(ps[0].1) == Ok(form[off].1)
    requires ConvertedFrom(form, off + 1, ps[1..])
    ensures ConvertedFrom(form, off, ps)
  {
    forall i | 1 <= i < |ps|
      ensures form[off + i].0 == ps[i].0 && DeepConvert(ps[i].1) == Ok(form[off + i].1)
    {
      assert ps[i] == ps[1..][i - 1];
    }
  }

  /** One step of the fold appends the converted head and keeps the keys fresh. */
  lemma FreshStep(acc: FormFields, ps: Params, f: Field)
    requires Fresh(acc, ps) && ps != []
    ensures SetKey(acc, ps[0].0, f) == acc + [(ps[0].0, f)]
    ensures Fresh(acc + [(ps[0].0, f)], ps[1..])
  {
    var k := ps[0].0;
    LookupMissing(acc, k);
    SetKeyInPlace(acc, k, f);
    DistinctTail(ps);
    var acc' := acc + [(k, f)];
    forall i, j | 0 <= i < |acc'| && 0 <= j < |ps[1..]| ensures acc'[i].0 != ps[1..][j].0 {
      assert ps[1..][j] == ps[j + 1];
    }
  }

  /**
   * buildFormData keeps exactly the keys of the parameters, in their order, with each value
   * converted; it throws a TypeError exactly when some value is an array holding an array.
   */
  lemma FormDataShape(ps: Params)
    requires DistinctKeys(ps)
    ensures FormData(ps).Ok? <==> forall i :: 0 <= i < |ps| ==> !Nested(ps[i].1)
    ensures FormData(ps).Err? ==> FormData(ps).error == TypeError
    ensures FormData(ps).Ok? ==>
      var form := FormData(ps).value;
      |form| == |ps| && Keys(form) == Keys(ps) && DistinctKeys(form) &&
      forall i :: 0 <= i < |ps| ==> DeepConvert(ps[i].1) == Ok(form[i].1)
  {
    FormFoldOk([], ps);
    if FormData(ps).Ok? {
      FormFoldValue([], ps);
      var form := FormData(ps).value;
      assert ConvertedFrom(form, 0, ps);
      forall i | 0 <= i < |ps| ensures form[i].0 == ps[i].0 && DeepConvert(ps[i].1) == Ok(form[i].1) {
        assert form[0 + i] == form[i];
      }
      KeysLookup(form, "");
      KeysLookup(ps, "");
    }
  }
}
