/**
 * The record store's data model: a parsed wine sample, the record the cube
 * keeps for it (the sample plus its three derived range labels), the
 * dimensions and measures an operation may name, dimension values and the
 * order Python's `sorted` puts them in.
 */
module Records {
  import opened Wrappers
  import opened Classifiers
  import opened Ordering

  /** One row of the dataset with every column already parsed. */
  datatype Sample = Sample(
    fixedAcidity: real,
    volatileAcidity: real,
    citricAcid: real,
    residualSugar: real,
    chlorides: real,
    freeSulfurDioxide: real,
    totalSulfurDioxide: real,
    density: real,
    pH: real,
    sulphates: real,
    alcohol: real,
    quality: int)

  /** The numeric columns of a record. */
  datatype Measure =
    | FixedAcidity | VolatileAcidity | CitricAcid | ResidualSugar | Chlorides
    | FreeSulfurDioxide | TotalSulfurDioxide | Density | PH | Sulphates | Alcohol | Quality

  /** A stored record: the sample and the labels derived from it at load time. */
  datatype Record = Record(sample: Sample, alcoholRange: string, pHRange: string, densityRange: string)

  /** A field a cube operation can group or filter by. */
  datatype Dim = Col(measure: Measure) | AlcoholRange | PHRange | DensityRange

  /** A field's value: every numeric column (the integer quality included) or a label. */
  datatype Value = Num(x: real) | Text(s: string)

  /** A grouping key: one value per grouping dimension, in order (a Python tuple). */
  type Key = seq<Value>

  /** Attaches the derived range labels to a parsed sample. */
  function Annotate(s: Sample): Record
  {
    Record(s, CategorizeAlcohol(s.alcohol), CategorizePH(s.pH), CategorizeDensity(s.density))
  }

  /** The record's labels are the classifiers' outputs for its own measurements. */
  predicate Labelled(r: Record)
  {
    r == Annotate(r.sample)
  }

  function MeasureOf(r: Record, m: Measure): real
  {
    var s := r.sample;
    match m
    case FixedAcidity => s.fixedAcidity
    case VolatileAcidity => s.volatileAcidity
    case CitricAcid => s.citricAcid
    case ResidualSugar => s.residualSugar
    case Chlorides => s.chlorides
    case FreeSulfurDioxide => s.freeSulfurDioxide
    case TotalSulfurDioxide => s.totalSulfurDioxide
    case Density => s.density
    case PH => s.pH
    case Sulphates => s.sulphates
    case Alcohol => s.alcohol
    case Quality => s.quality as real
  }

  /** The value of field `d` of a record. */
  function ValueOf(r: Record, d: Dim): Value
  {
    match d
    case Col(m) => Num(MeasureOf(r, m))
    case AlcoholRange => Text(r.alcoholRange)
    case PHRange => Text(r.pHRange)
    case DensityRange => Text(r.densityRange)
  }

  /**
   * The key of a record: its values on `dims`, in order; position i holds a
   * number exactly when `dims[i]` is a numeric column.
   */
  function KeyOf(r: Record, dims: seq<Dim>): (k: Key)
    ensures |k| == |dims|
    ensures forall i :: 0 <= i < |dims| ==> (k[i].Num? <==> dims[i].Col?)
  {
    seq(|dims|, i requires 0 <= i < |dims| => ValueOf(r, dims[i]))
  }

  /**
   * A dimension determines the kind of its values, so two keys built from the
   * same dimensions are compared position by position on values of one kind
   * (Python's comparisons never meet a number against a string there).
   */
  lemma KindOfDimension(r: Record, d: Dim)
    ensures ValueOf(r, d).Num? <==> d.Col?
  {
  }

  /** The key for a longer dimension list starts with the key for its prefix. */
  lemma KeyOfPrefix(r: Record, dims: seq<Dim>, finer: seq<Dim>)
    requires |dims| <= |finer| && finer[..|dims|] == dims
    ensures KeyOf(r, finer)[..|dims|] == KeyOf(r, dims)
  {
  }

  /** Python compares characters by code point. */
  function CharLess(a: char, b: char): bool
  {
    a < b
  }

  /**
   * Python's `<` on dimension values: numbers numerically, strings
   * lexicographically. Numbers are put before strings to make the order
   * total; by KindOfDimension that case never decides a comparison of keys.
   */
  function ValueLess(a: Value, b: Value): bool
  {
    match (a, b)
    case (Num(x), Num(y)) => x < y
    case (Text(s), Text(t)) => LexLess(s, t, CharLess)
    case (Num(_), Text(_)) => true
    case (Text(_), Num(_)) => false
  }

  /** Python's `<` on tuples of dimension values. */
  function KeyLess(a: Key, b: Key): bool
  {
    LexLess(a, b, ValueLess)
  }

  lemma CharOrder()
    ensures StrictTotalOrder(CharLess)
  {
  }

  lemma ValueOrder()
    ensures StrictTotalOrder(ValueLess)
  {
    CharOrder();
    LexOrder(CharLess);
  }

  lemma KeyOrder()
    ensures StrictTotalOrder(KeyLess)
  {
    ValueOrder();
    LexOrder(ValueLess);
  }

  /**
   * Python's `a <= b` on dimension values; None when it raises a TypeError
   * (a number compared with a string).
   */
  function AtMost(a: Value, b: Value): (r: Option<bool>)
    ensures r.None? <==> a.Num? != b.Num?
  {
    match (a, b)
    case (Num(x), Num(y)) => Some(x <= y)
    case (Text(s), Text(t)) => Some(!LexLess(t, s, CharLess))
    case _ => None
  }

  /** On values of one kind, `<=` is "equal or less" in the sorting order. */
  lemma AtMostIsLessOrEqual(a: Value, b: Value)
    requires a.Num? == b.Num?
    ensures AtMost(a, b) == Some(a == b || ValueLess(a, b))
  {
    if a.Text? {
      CharOrder();
      LexOrder(CharLess);
      assert a.s == b.s <==> a == b;
    }
  }

  /** The derived labels in the order rollup lists them. */
  lemma AlcoholLabelOrder()
    ensures ValueLess(Text(AlcoholHigh), Text(AlcoholLow))
    ensures ValueLess(Text(AlcoholLow), Text(AlcoholMedium))
  {
  }
}
