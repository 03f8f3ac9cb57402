/**
 * The dashboard's chart data (`DashboardOverview`): the market-score and
 * funding-allocation fields of an analysis turned into `{name, value}` series,
 * and the colour of each pie cell. `JSON.parse` is the decoder oracle; the
 * `Number(...)` coercion of values is not modelled, so a point keeps the raw value.
 */
module Dashboard {
  import opened Wrappers
  import opened JsString
  import opened Json

  /** One chart entry. */
  datatype Point = Point(name: string, value: Json)

  /**
   * Why shaping throws: `JSON.parse` rejects the field's text, or the decoded
   * value is `null` and `Object.keys(null)` fails.
   */
  datatype ShapeError = MalformedJson | NullValue

  // ---------------------------------------------------------------- Object.keys(...).map(...)

  /** An object's entries, each key capitalised, in key order. */
  function ObjectPoints(fields: seq<(string, Json)>): (r: seq<Point>)
    ensures |r| == |fields|
    ensures forall k :: 0 <= k < |fields| ==> r[k] == Point(Capitalise(fields[k].0), fields[k].1)
  {
    if fields == [] then [] else [Point(Capitalise(fields[0].0), fields[0].1)] + ObjectPoints(fields[1..])
  }

  /** The entries of an array-like value: keys `"0"`, `"1"`, ..., after `start`. */
  function IndexPoints(values: seq<Json>, start: nat): (r: seq<Point>)
    ensures |r| == |values|
    ensures forall k :: 0 <= k < |values| ==> r[k] == Point(Capitalise(NatToString(start + k)), values[k])
    decreases |values|
  {
    if values == [] then []
    else [Point(Capitalise(NatToString(start)), values[0])] + IndexPoints(values[1..], start + 1)
  }

  /** The one-character strings of `s`, as indexing a string yields them. */
  function Characters(s: string): (r: seq<Json>)
    ensures |r| == |s|
    ensures forall k :: 0 <= k < |s| ==> r[k] == JString([s[k]])
  {
    if s == [] then [] else [JString([s[0]])] + Characters(s[1..])
  }

  /**
   * `Object.keys(v).map(name => ({name: capitalised name, value: v[name]}))`:
   * an object's fields; an array's items or a string's characters under their
   * indices; nothing for a boolean or a number; `null` throws.
   */
  function Points(v: Json): (r: Result<seq<Point>, ShapeError>)
    ensures r.Err? <==> v.JNull?
    ensures r.Err? ==> r.error == NullValue
    ensures v.JObject? ==> r == Ok(ObjectPoints(v.fields))
    ensures v.JArray? ==> r == Ok(IndexPoints(v.items, 0))
    ensures v.JString? ==> r == Ok(IndexPoints(Characters(v.s), 0))
    ensures v.JBool? || v.JNumber? ==> r == Ok([])
  {
    match v
    case JNull => Err(NullValue)
    case JObject(fields) => Ok(ObjectPoints(fields))
    case JArray(items) => Ok(IndexPoints(items, 0))
    case JString(s) => Ok(IndexPoints(Characters(s), 0))
    case _ => Ok([])
  }

  /**
   * One point per key of an object, in key order: the label is the key with its
   * first character upper-cased, and with distinct keys the value is the one
   * property access returns for that key.
   */
  lemma ObjectSeries(fields: seq<(string, Json)>)
    requires forall i, j :: 0 <= i < j < |fields| ==> fields[i].0 != fields[j].0
    ensures Points(JObject(fields)).Ok?
    ensures |Points(JObject(fields)).value| == |Keys(fields)|
    ensures forall k :: 0 <= k < |fields| ==>
      && Points(JObject(fields)).value[k].name == Capitalise(Keys(fields)[k])
      && Some(Points(JObject(fields)).value[k].value) == Get(JObject(fields), Keys(fields)[k])
  {
    forall k | 0 <= k < |fields|
      ensures Some(fields[k].1) == FieldValue(fields, fields[k].0)
    {
      FieldValueOfDistinct(fields, k);
    }
  }

  /** With distinct keys, looking up the key of field `k` finds field `k`'s value. */
  lemma {:induction false} FieldValueOfDistinct(fields: seq<(string, Json)>, k: nat)
    requires forall i, j :: 0 <= i < j < |fields| ==> fields[i].0 != fields[j].0
    requires k < |fields|
    ensures FieldValue(fields, fields[k].0) == Some(fields[k].1)
  {
    if k > 0 {
      assert fields[0].0 != fields[k].0;
      assert fields[1..][k - 1] == fields[k];
      FieldValueOfDistinct(fields[1..], k - 1);
    }
  }

  /** The label of a series entry is already capitalised: capitalising it again changes nothing. */
  lemma LabelsAreCapitalised(v: Json)
    requires Points(v).Ok?
    ensures forall k :: 0 <= k < |Points(v).value| ==>
      Capitalise(Points(v).value[k].name) == Points(v).value[k].name
  {
    var ps := Points(v).value;
    forall k | 0 <= k < |ps|
      ensures Capitalise(ps[k].name) == ps[k].name
    {
      match v
      case JObject(fields) =>
        CapitaliseIdempotent(fields[k].0);
      case JArray(items) =>
        CapitaliseIdempotent(NatToString(k));
      case JString(s) =>
        CapitaliseIdempotent(NatToString(k));
    }
  }

  /** Index labels are the plain decimal indices: capitalising digits changes nothing. */
  lemma IndexLabelsAreDigits(values: seq<Json>)
    ensures forall k :: 0 <= k < |values| ==> IndexPoints(values, 0)[k].name == NatToString(k)
  {
    forall k | 0 <= k < |values|
      ensures IndexPoints(values, 0)[k].name == NatToString(k)
    {
      var d := NatToString(k);
      assert !IsLowerAscii(d[0]);
      assert Capitalise(d) == d;
    }
  }

  /** No two entries of an array or a string share a label. */
  lemma IndexLabelsAreDistinct(values: seq<Json>)
    ensures forall i, j :: 0 <= i < j < |values| ==> IndexPoints(values, 0)[i].name != IndexPoints(values, 0)[j].name
  {
    IndexLabelsAreDigits(values);
    forall i, j | 0 <= i < j < |values|
      ensures NatToString(i) != NatToString(j)
    {
      NatToStringInjective(i, j);
    }
  }

  // ---------------------------------------------------------------- decode or pass through

  /**
   * `getMarketData` / `getFundingData` on the field's value: a string is parsed
   * (the empty string as `"{}"`) with no `catch`; any other value is used as it
   * is, a falsy one (or a missing field) as `{}`.
   */
  function Shape(field: Option<Json>, decode: Decoder): Result<seq<Point>, ShapeError> {
    match field
    case None => Ok([])
    case Some(JString(s)) =>
      (match decode(if s == "" then "{}" else s)
       case None => Err(MalformedJson)
       case Some(v) => Points(v))
    case Some(v) => if Truthy(field) then Points(v) else Ok([])
  }

  /** A truthy value that is not a string is shaped as it is. */
  lemma PassThrough(v: Json, decode: Decoder)
    requires !v.JString? && Truthy(Some(v))
    ensures Shape(Some(v), decode) == Points(v)
  {
  }

  /** A falsy value (`null`, `false`, `0`) is replaced by `{}` and gives an empty series. */
  lemma FalsyGivesEmptySeries(v: Json, decode: Decoder)
    requires !v.JString? && !Truthy(Some(v))
    ensures Shape(Some(v), decode) == Ok([])
  {
  }

  /** A non-empty string is parsed, and its value shaped; the series fails only if parsing does or the text is `null`. */
  lemma StringIsParsed(s: string, decode: Decoder)
    requires s != ""
    ensures decode(s).Some? ==> Shape(Some(JString(s)), decode) == Points(decode(s).value)
    ensures Shape(Some(JString(s)), decode).Err? <==> decode(s).None? || decode(s) == Some(JNull)
  {
  }

  /** A missing field, or the empty string when `"{}"` parses as the empty object, gives an empty series. */
  lemma EmptyFieldGivesEmptySeries(decode: Decoder)
    requires decode("{}") == Some(JObject([]))
    ensures Shape(None, decode) == Ok([])
    ensures Shape(Some(JString("")), decode) == Ok([])
  {
  }

  /** A non-empty string that does not parse makes shaping fail rather than fall back to a default. */
  lemma MalformedFieldFails(s: string, decode: Decoder)
    requires s != "" && decode(s).None?
    ensures Shape(Some(JString(s)), decode) == Err(MalformedJson)
  {
  }

  /** A string holding JSON text and the value it encodes give the same series. */
  lemma DecodedMatchesDirect(s: string, v: Json, decode: Decoder)
    requires s != "" && decode(s) == Some(v)
    requires v.JObject? || v.JArray?
    ensures Shape(Some(JString(s)), decode) == Shape(Some(v), decode)
  {
  }

  /** The market-score series: the shaping rule on `marketAnalysisScore`. */
  function MarketData(analysis: Json, decode: Decoder): Result<seq<Point>, ShapeError> {
    Shape(Get(analysis, "marketAnalysisScore"), decode)
  }

  /** The funding-allocation series: the same rule on `fundingAllocation`. */
  function FundingData(analysis: Json, decode: Decoder): Result<seq<Point>, ShapeError> {
    Shape(Get(analysis, "fundingAllocation"), decode)
  }

  /** Both series follow one rule: equal field values give equal series. */
  lemma SameShapingRule(analysis: Json, decode: Decoder)
    requires Get(analysis, "marketAnalysisScore") == Get(analysis, "fundingAllocation")
    ensures MarketData(analysis, decode) == FundingData(analysis, decode)
  {
  }

  // ---------------------------------------------------------------- pie colours

  const Colors: seq<string> := ["#3b82f6", "#8b5cf6", "#06b6d4", "#6366f1"]

  /** `COLORS[index % COLORS.length]`. */
  function CellColor(index: nat): (c: string)
    ensures c in Colors
  {
    Colors[index % |Colors|]
  }

  /** Colours repeat with period four, the first four cells take the four colours in order, and neighbours differ. */
  lemma ColorCycle(index: nat)
    ensures CellColor(index + 4) == CellColor(index)
    ensures index < 4 ==> CellColor(index) == Colors[index]
    ensures CellColor(index) != CellColor(index + 1)
  {
    assert (index + 1) % 4 != index % 4;
  }

  /** `fundingData.map((entry, index) => <Cell fill=... />)`: the fill of every cell, in order. */
  function CellFills(n: nat): (fills: seq<string>)
    ensures |fills| == n
    ensures forall k :: 0 <= k < n ==> fills[k] == Colors[k % 4]
  {
    if n == 0 then [] else CellFills(n - 1) + [CellColor(n - 1)]
  }

  // ---------------------------------------------------------------- component state

  /** The component's two pieces of state, filled by its effect. */
  class DashboardState {
    var marketData: seq<Point>
    var fundingData: seq<Point>

    /** `useState([])` twice. */
    constructor ()
      ensures marketData == [] && fundingData == []
    {
      marketData := [];
      fundingData := [];
    }

    /**
     * The effect: for a truthy analysis, market data is set first and then
     * funding data. A failure in one shaping stops the effect there, leaving
     * whatever was set before it; a falsy analysis changes nothing.
     */
    method Refresh(analysis: Json, decode: Decoder) returns (failure: Option<ShapeError>)
      modifies this
      ensures !Truthy(Some(analysis)) ==> failure.None? && unchanged(this)
      ensures Truthy(Some(analysis)) && MarketData(analysis, decode).Err? ==>
        failure == Some(MarketData(analysis, decode).error) && unchanged(this)
      ensures Truthy(Some(analysis)) && MarketData(analysis, decode).Ok? ==>
        marketData == MarketData(analysis, decode).value
        && (match FundingData(analysis, decode)
            case Ok(f) => failure.None? && fundingData == f
            case Err(e) => failure == Some(e) && fundingData == old(fundingData))
    {
      failure := None;
      if !Truthy(Some(analysis)) {
        return;
      }
      var market := MarketData(analysis, decode);
      if market.Err? {
        return Some(market.error);
      }
      marketData := market.value;
      var funding := FundingData(analysis, decode);
      if funding.Err? {
        return Some(funding.error);
      }
      fundingData := funding.value;
    }
  }
}
