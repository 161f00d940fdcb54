/** `ChartType` and its string mapping (src/charts/mod.rs). */
module Charts {

  datatype ChartType = Line | Candle

  /** `ChartType::as_str`. */
  function AsStr(t: ChartType): (r: string)
    ensures r == "line" || r == "candle"
    ensures (r == "candle") <==> t == Candle
  {
    match t
    case Line => "line"
    case Candle => "candle"
  }

  /** `ChartType::from_str`: "candle" is Candle, every other string is Line. */
  function FromStr(s: string): (t: ChartType)
    ensures t == Candle <==> s == "candle"
  {
    if s == "line" then Line
    else if s == "candle" then Candle
    else Line
  }

  /** `ChartType::from_usize_as_str`: 0 and 1 name the two chart types, anything else is "None". */
  function FromUsizeAsStr(n: nat): (r: string)
    ensures n == 0 ==> r == "line"
    ensures n == 1 ==> r == "candle"
    ensures n > 1 ==> r == "None"
  {
    match n
    case 0 => "line"
    case 1 => "candle"
    case _ => "None"
  }

  /** `from_str` undoes `as_str`. */
  lemma FromStrAsStr(t: ChartType)
    ensures FromStr(AsStr(t)) == t
  {
  }

  /** `as_str` undoes `from_str` exactly on the two names. */
  lemma AsStrFromStr(s: string)
    ensures AsStr(FromStr(s)) == s <==> (s == "line" || s == "candle")
  {
  }

  /** Reading back a numbered chart type gives Candle exactly for 1. */
  lemma FromStrOfUsize(n: nat)
    ensures FromStr(FromUsizeAsStr(n)) == (if n == 1 then Candle else Line)
  {
  }
}
