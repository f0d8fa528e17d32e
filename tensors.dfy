/**
 * The tensor-shape helpers of the C++ inference wrapper: the element count
 * of a shape (the `size` lambda of `get_tensors`), the fixed table of model
 * tensors, and the `shape2infer` / `shape2str` lambdas of `warmup`.
 * The ONNX Runtime sessions around them are not part of this model.
 */
module DeepFilterInference {
  import opened Wrappers
  import opened Arith

  /** `size_t` arithmetic is modulo 2^64. */
  const SizeModulus: int := 0x1_0000_0000_0000_0000

  /** The exception `size` throws: "Negative tensor shape element!". */
  datatype SizeError = NegativeShapeElement

  /** A model tensor: its shape and its float buffer. */
  datatype Tensor = Tensor(shape: seq<int>, value: seq<real>)

  /** The product of the dimensions, 1 for the empty shape and 0 when a dimension is 0. */
  function Product(shape: seq<int>): (p: int)
    ensures (exists i :: 0 <= i < |shape| && shape[i] == 0) ==> p == 0
  {
    if shape == [] then 1
    else
      var init := shape[..|shape| - 1];
      assert forall i :: 0 <= i < |init| ==> init[i] == shape[i];
      Product(init) * shape[|shape| - 1]
  }

  predicate NonNegative(shape: seq<int>)
  {
    forall i :: 0 <= i < |shape| ==> shape[i] >= 0
  }

  lemma {:induction false} ProductNonNegative(shape: seq<int>)
    requires NonNegative(shape)
    ensures Product(shape) >= 0
  {
    if shape != [] {
      ProductNonNegative(shape[..|shape| - 1]);
    }
  }

  /** Reducing modulo m before a multiplication does not change the residue. */
  lemma MulMod(x: int, v: int, m: int)
    requires m > 0
    ensures ((x % m) * v) % m == (x * v) % m
  {
    var q, r := x / m, x % m;
    var q2, r2 := (r * v) / m, (r * v) % m;
    assert x * v == (q * v + q2) * m + r2 by {
      assert x * v == (q * m + r) * v;
      assert r * v == q2 * m + r2;
    }
    DivModUnique(x * v, q * v + q2, r2, m);
  }

  function Pow(b: int, n: nat): int
  {
    if n == 0 then 1 else Pow(b, n - 1) * b
  }

  lemma {:induction false} ProductAtMost(shape: seq<int>, b: int)
    requires forall i :: 0 <= i < |shape| ==> 0 <= shape[i] <= b
    ensures 0 <= Product(shape) <= Pow(b, |shape|)
  {
    if shape != [] {
      ProductAtMost(shape[..|shape| - 1], b);
      MulMono(Product(shape[..|shape| - 1]), shape[|shape| - 1], Pow(b, |shape| - 1), b);
    }
  }

  /**
   * The `size` lambda: multiplies the dimensions into a `size_t`, throwing
   * as soon as it meets a negative dimension.
   */
  method Size(shape: seq<int>) returns (r: Result<int, SizeError>)
    ensures r.Err? <==> !NonNegative(shape)
    ensures r.Ok? ==> r.value == Product(shape) % SizeModulus
    ensures r.Ok? && Product(shape) < SizeModulus ==> r.value == Product(shape)
  {
    var product := 1;
    for i := 0 to |shape|
      invariant NonNegative(shape[..i])
      invariant product == Product(shape[..i]) % SizeModulus
    {
      var value := shape[i];
      if value < 0 {
        return Err(NegativeShapeElement);
      }
      assert shape[..i + 1][..i] == shape[..i];
      MulMod(Product(shape[..i]), value, SizeModulus);
      product := (product * value) % SizeModulus;
    }
    assert shape[..|shape|] == shape;
    ProductNonNegative(shape);
    return Ok(product);
  }

  /** The shape table of `get_tensors`. */
  const Shapes: map<string, seq<int>> := map[
    "feat_erb" := [1, 1, 1, 32],
    "feat_spec" := [1, 2, 1, 96],
    "e0" := [1, 64, 1, 32],
    "e1" := [1, 64, 1, 16],
    "e2" := [1, 64, 1, 8],
    "e3" := [1, 64, 1, 8],
    "c0" := [1, 64, 1, 96],
    "emb" := [1, 1, 512],
    "m" := [1, 1, 1, 32],
    "coefs" := [1, 1, 96, 10]
  ]

  /** The tensor names the three session runs of `inference` look up. */
  const EncoderNames: seq<string> := ["feat_erb", "feat_spec", "e0", "e1", "e2", "e3", "c0", "emb"]
  const ErbDecoderNames: seq<string> := ["e0", "e1", "e2", "e3", "emb", "m"]
  const DfDecoderNames: seq<string> := ["c0", "emb", "coefs"]

  lemma SessionTensorsInTable()
    ensures forall n :: n in EncoderNames ==> n in Shapes
    ensures forall n :: n in ErbDecoderNames ==> n in Shapes
    ensures forall n :: n in DfDecoderNames ==> n in Shapes
  {
  }

  lemma TableShapesSmall(name: string)
    requires name in Shapes
    ensures NonNegative(Shapes[name])
    ensures 0 <= Product(Shapes[name]) < SizeModulus
  {
    assert |Shapes[name]| <= 4 && forall i :: 0 <= i < |Shapes[name]| ==> 0 <= Shapes[name][i] <= 512;
    ProductAtMost(Shapes[name], 512);
    assert Pow(512, |Shapes[name]|) <= Pow(512, 4) by {
      PowMono(512, |Shapes[name]|, 4);
    }
  }

  lemma {:induction false} PowMono(b: int, n: nat, k: nat)
    requires b >= 1 && n <= k
    ensures 1 <= Pow(b, n) <= Pow(b, k)
  {
    if n < k {
      PowMono(b, n, k - 1);
      MulMono(1, 1, Pow(b, k - 1), b);
      MulMono(Pow(b, k - 1), 1, Pow(b, k - 1), b);
    } else if n > 0 {
      PowMono(b, n - 1, n - 1);
      MulMono(1, 1, Pow(b, n - 1), b);
    }
  }

  /** The `coefs` output holds 96 x 10 values. */
  lemma CoefsTensorLength()
    ensures Product(Shapes["coefs"]) == 960
  {
    assert Shapes["coefs"] == [1, 1, 96, 10];
    assert [1, 1, 96, 10][..3] == [1, 1, 96];
    assert [1, 1, 96][..2] == [1, 1];
    assert [1, 1][..1] == [1];
    assert [1][..0] == [];
  }

  predicate AllZero(v: seq<real>)
  {
    forall i :: 0 <= i < |v| ==> v[i] == 0.0
  }

  /** All dimensions of all shapes in a table are non-negative. */
  predicate TableNonNegative(shapes: map<string, seq<int>>)
  {
    forall name :: name in shapes ==> NonNegative(shapes[name])
  }

  /** The tensors built so far: each with its table shape and a zero buffer of the shape's size. */
  predicate Built(tensors: map<string, Tensor>, shapes: map<string, seq<int>>)
  {
    forall name :: name in tensors ==>
      && name in shapes
      && tensors[name].shape == shapes[name]
      && |tensors[name].value| == Product(shapes[name]) % SizeModulus
      && AllZero(tensors[name].value)
  }

  /**
   * The loop of `get_tensors` over a shape table: one tensor per entry, with
   * the entry's shape and a zero-initialised buffer of `size(shape)` floats;
   * `size` throws when some entry has a negative dimension.
   */
  method MakeTensors(shapes: map<string, seq<int>>) returns (r: Result<map<string, Tensor>, SizeError>)
    ensures r.Err? <==> !TableNonNegative(shapes)
    ensures r.Ok? ==> r.value.Keys == shapes.Keys && Built(r.value, shapes)
  {
    var tensors := map[];
    var todo := shapes.Keys;
    while todo != {}
      invariant todo <= shapes.Keys
      invariant tensors.Keys == shapes.Keys - todo
      invariant Built(tensors, shapes)
      invariant forall name :: name in shapes && name !in todo ==> NonNegative(shapes[name])
      decreases |todo|
    {
      var name :| name in todo;
      var shape := shapes[name];
      var size := Size(shape);
      match size {
        case Err(e) =>
          return Err(e);
        case Ok(n) =>
          tensors := tensors[name := Tensor(shape, seq(n, _ => 0.0))];
      }
      todo := todo - {name};
    }
    return Ok(tensors);
  }

  /**
   * `get_tensors` on the fixed table never throws: it yields exactly one
   * tensor per table entry, whose buffer holds the product of its dimensions.
   */
  method GetTensors() returns (tensors: map<string, Tensor>)
    ensures tensors.Keys == Shapes.Keys
    ensures forall name :: name in tensors ==>
      && tensors[name].shape == Shapes[name]
      && |tensors[name].value| == Product(Shapes[name])
      && AllZero(tensors[name].value)
  {
    TableIsSizeable();
    var r := MakeTensors(Shapes);
    match r {
      case Err(_) =>
        assert false;
        tensors := map[];
      case Ok(t) =>
        tensors := t;
    }
  }

  lemma TableIsSizeable()
    ensures TableNonNegative(Shapes)
    ensures forall name :: name in Shapes ==> Product(Shapes[name]) % SizeModulus == Product(Shapes[name])
  {
    forall name | name in Shapes
      ensures NonNegative(Shapes[name]) && Product(Shapes[name]) % SizeModulus == Product(Shapes[name])
    {
      TableShapesSmall(name);
    }
  }

  /** The shape `shape2infer` builds: every negative entry replaced. */
  function Inferred(shape: seq<int>, inferValue: int): (r: seq<int>)
    ensures |r| == |shape|
    ensures forall i :: 0 <= i < |shape| && shape[i] >= 0 ==> r[i] == shape[i]
    ensures inferValue >= 0 ==> NonNegative(r)
  {
    seq(|shape|, i requires 0 <= i < |shape| => if shape[i] < 0 then inferValue else shape[i])
  }

  /** `shape2infer`: pushes each entry, or `inferValue` in place of a negative one. */
  method ShapeToInfer(shape: seq<int>, inferValue: int) returns (values: seq<int>)
    ensures values == Inferred(shape, inferValue)
    ensures |values| == |shape|
    ensures forall i :: 0 <= i < |shape| ==>
      values[i] == (if shape[i] < 0 then inferValue else shape[i])
  {
    values := [];
    for i := 0 to |shape|
      invariant values == Inferred(shape[..i], inferValue)
    {
      var value := shape[i];
      values := values + [if value < 0 then inferValue else value];
    }
    assert shape[..|shape|] == shape;
  }

  /**
   * `warmup` infers with 1: the inferred input shape has no negative
   * entry and describes a non-empty tensor, so `size` accepts it.
   */
  lemma {:induction false} WarmupShapePositive(shape: seq<int>)
    ensures NonNegative(Inferred(shape, 1))
    ensures Product(Inferred(shape, 1)) >= 1 <==> forall i :: 0 <= i < |shape| ==> shape[i] != 0
  {
    if shape != [] {
      var init := shape[..|shape| - 1];
      WarmupShapePositive(init);
      assert Inferred(shape, 1)[..|shape| - 1] == Inferred(init, 1);
      ProductNonNegative(Inferred(init, 1));
      var last := Inferred(shape, 1)[|shape| - 1];
      assert last >= 0;
      if Product(Inferred(init, 1)) >= 1 && last >= 1 {
        assert Product(Inferred(init, 1)) * last >= 1;
      }
      if Product(Inferred(shape, 1)) >= 1 {
        assert last != 0;
        assert Product(Inferred(init, 1)) != 0;
        assert forall i :: 0 <= i < |init| ==> shape[i] == init[i];
      }
    }
  }

  /** Inferring twice with a non-negative value changes nothing more. */
  lemma InferIdempotent(shape: seq<int>, inferValue: int)
    requires inferValue >= 0
    ensures Inferred(Inferred(shape, inferValue), inferValue) == Inferred(shape, inferValue)
  {
  }

  // ---------------------------------------------------------------------
  // shape2str

  function DigitChar(d: int): char
    requires 0 <= d < 10
  {
    "0123456789"[d]
  }

  predicate IsDigit(c: char)
  {
    '0' <= c <= '9'
  }

  /** Decimal digits of a non-negative value, as `std::to_string` writes them. */
  function NatToString(n: nat): (s: string)
    ensures |s| > 0
    ensures forall i :: 0 <= i < |s| ==> IsDigit(s[i])
  {
    if n < 10 then [DigitChar(n)] else NatToString(n / 10) + [DigitChar(n % 10)]
  }

  /** `std::to_string` of a 64-bit signed value: a minus sign exactly for a negative value, then digits. */
  function IntToString(n: int): (s: string)
    ensures |s| > 0
    ensures s[0] == '-' <==> n < 0
    ensures forall i :: (if n < 0 then 1 else 0) <= i < |s| ==> IsDigit(s[i])
    ensures n < 0 ==> |s| > 1
  {
    if n < 0 then "-" + NatToString(-n) else NatToString(n)
  }

  /** `value2str`: -1, and only -1, is written as a star; no value's text contains a comma. */
  function ValueToString(value: int): (s: string)
    ensures |s| > 0
    ensures s == "*" <==> value == -1
    ensures forall i :: 0 <= i < |s| ==> s[i] != ','
  {
    if value == -1 then "*" else IntToString(value)
  }

  /** The entries, each through `value2str`, joined by commas: empty exactly for no entries. */
  function JoinValues(shape: seq<int>): (s: string)
    ensures |s| == 0 <==> shape == []
  {
    if shape == [] then ""
    else if |shape| == 1 then ValueToString(shape[0])
    else JoinValues(shape[..|shape| - 1]) + "," + ValueToString(shape[|shape| - 1])
  }

  /** The text `shape2str` produces: the joined entries in parentheses. */
  function ShapeString(shape: seq<int>): (s: string)
    ensures |s| >= 2 && s[0] == '(' && s[|s| - 1] == ')'
    ensures s[1..|s| - 1] == JoinValues(shape)
  {
    "(" + JoinValues(shape) + ")"
  }

  /** `shape2str`: an opening parenthesis, the entries separated by commas, a closing one. */
  method ShapeToString(shape: seq<int>) returns (s: string)
    ensures s == ShapeString(shape)
    ensures shape == [] ==> s == "()"
    ensures |s| >= 2 && s[0] == '(' && s[|s| - 1] == ')'
  {
    s := "(";
    if shape != [] {
      s := s + ValueToString(shape[0]);
      assert shape[..1] == [shape[0]];
      for i := 1 to |shape|
        invariant s == "(" + JoinValues(shape[..i])
      {
        JoinStep(shape, i);
        s := s + "," + ValueToString(shape[i]);
      }
      assert shape[..|shape|] == shape;
    }
    s := s + ")";
  }

  /** Joining one more entry appends a comma and the entry's text. */
  lemma JoinStep(shape: seq<int>, i: nat)
    requires 0 < i < |shape|
    ensures JoinValues(shape[..i + 1]) == JoinValues(shape[..i]) + "," + ValueToString(shape[i])
  {
    assert shape[..i + 1][..i] == shape[..i];
  }

  // A reader for the text of `shape2str`, the partner that shows the text
  // determines the shape.

  function DigitsValue(s: string): nat
  {
    if s == [] then 0
    else DigitsValue(s[..|s| - 1]) * 10 + (if IsDigit(s[|s| - 1]) then s[|s| - 1] as int - '0' as int else 0)
  }

  function ParseInt(s: string): Option<int>
  {
    if |s| > 1 && s[0] == '-' && (forall i :: 1 <= i < |s| ==> IsDigit(s[i])) then Some(-(DigitsValue(s[1..]) as int))
    else if |s| > 0 && forall i :: 0 <= i < |s| ==> IsDigit(s[i]) then Some(DigitsValue(s))
    else None
  }

  function ParseValue(s: string): Option<int>
  {
    if s == "*" then Some(-1) else ParseInt(s)
  }

  function LastComma(s: string): (k: int)
    ensures -1 <= k < |s|
    ensures k >= 0 ==> s[k] == ','
    ensures forall j :: k < j < |s| ==> s[j] != ','
  {
    if s == [] then -1
    else if s[|s| - 1] == ',' then |s| - 1
    else LastComma(s[..|s| - 1])
  }

  function ParseValues(s: string): Option<seq<int>>
  {
    var k := LastComma(s);
    if k < 0 then
      match ParseValue(s)
      case Some(v) => Some([v])
      case None => None
    else
      match ParseValues(s[..k])
      case None => None
      case Some(init) =>
        match ParseValue(s[k + 1..])
        case Some(v) => Some(init + [v])
        case None => None
  }

  function ParseShape(s: string): Option<seq<int>>
  {
    if |s| < 2 || s[0] != '(' || s[|s| - 1] != ')' then None
    else if |s| == 2 then Some([])
    else ParseValues(s[1..|s| - 1])
  }

  lemma {:induction false} DigitsRoundTrip(n: nat)
    ensures DigitsValue(NatToString(n)) == n
  {
    if n >= 10 {
      DigitsRoundTrip(n / 10);
      var s := NatToString(n);
      assert s[..|s| - 1] == NatToString(n / 10);
    }
  }

  /** Every value's text has no comma and parses back to the value. */
  lemma ValueRoundTrip(value: int)
    ensures ParseValue(ValueToString(value)) == Some(value)
    ensures |ValueToString(value)| > 0
    ensures forall i :: 0 <= i < |ValueToString(value)| ==> ValueToString(value)[i] != ','
  {
    if value < -1 {
      NegativeRoundTrip(value);
    } else if value >= 0 {
      NatRoundTrip(value);
    } else {
      assert ValueToString(value) == "*";
    }
  }

  /** `to_string` of a negative value other than -1, a minus sign and the digits, reads back as the value. */
  lemma NegativeRoundTrip(value: int)
    requires value < -1
    ensures ParseValue(ValueToString(value)) == Some(value)
  {
    var t := NatToString(-value);
    var s := ValueToString(value);
    assert s == "-" + t;
    DigitsRoundTrip(-value);
    assert s[1..] == t;
    assert |s| > 1 && s[0] == '-' && forall i :: 1 <= i < |s| ==> IsDigit(s[i]);
    assert ParseInt(s) == Some(value);
  }

  /** `to_string` of a non-negative value reads back as the value. */
  lemma NatRoundTrip(value: int)
    requires value >= 0
    ensures ParseValue(ValueToString(value)) == Some(value)
  {
    var t := ValueToString(value);
    assert t == NatToString(value);
    DigitsRoundTrip(value);
    assert t != "*" by {
      assert IsDigit(t[0]) && t[0] != "*"[0];
    }
    assert ParseInt(t) == Some(value);
  }

  lemma {:induction false} JoinRoundTrip(shape: seq<int>)
    requires shape != []
    ensures ParseValues(JoinValues(shape)) == Some(shape)
  {
    var last := shape[|shape| - 1];
    if |shape| == 1 {
      SingleRoundTrip(last);
      assert shape == [last];
    } else {
      var init := shape[..|shape| - 1];
      var v := ValueToString(last);
      assert JoinValues(shape) == JoinValues(init) + "," + v;
      JoinRoundTrip(init);
      ValueRoundTrip(last);
      ParseValuesStep(JoinValues(init), v, init, last);
      assert init + [last] == shape;
    }
  }

  lemma SingleRoundTrip(value: int)
    ensures ParseValues(ValueToString(value)) == Some([value])
  {
    ValueRoundTrip(value);
    assert LastComma(ValueToString(value)) == -1;
  }

  lemma ParseValuesStep(j: string, v: string, init: seq<int>, last: int)
    requires ParseValues(j) == Some(init)
    requires ParseValue(v) == Some(last)
    requires forall i :: 0 <= i < |v| ==> v[i] != ','
    ensures ParseValues(j + "," + v) == Some(init + [last])
  {
    var s := j + "," + v;
    LastCommaOfSuffix(j, v);
    assert s[..|j|] == j;
    assert s[|j| + 1..] == v;
  }

  lemma {:induction false} LastCommaOfSuffix(j: string, v: string)
    requires forall i :: 0 <= i < |v| ==> v[i] != ','
    ensures LastComma(j + "," + v) == |j|
  {
    var s := j + "," + v;
    if v != [] {
      var v' := v[..|v| - 1];
      assert s[|s| - 1] == v[|v| - 1];
      assert s[..|s| - 1] == j + "," + v';
      LastCommaOfSuffix(j, v');
    }
  }

  /** The text of `shape2str` determines the shape: reading it back gives the shape. */
  lemma ShapeStringRoundTrip(shape: seq<int>)
    ensures ParseShape(ShapeString(shape)) == Some(shape)
  {
    var s := ShapeString(shape);
    if shape != [] {
      JoinRoundTrip(shape);
      ValueRoundTrip(shape[0]);
    }
  }

  /** Distinct shapes print differently. */
  lemma ShapeStringInjective(a: seq<int>, b: seq<int>)
    requires ShapeString(a) == ShapeString(b)
    ensures a == b
  {
    ShapeStringRoundTrip(a);
    ShapeStringRoundTrip(b);
  }
}
