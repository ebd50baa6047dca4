/** The shapes of the JSON document that the Python exporter writes and the
    React grid reads: `hist_data`, `contour_data`, `hist_maxmin` and
    `param_error`. Numbers are exact reals; IEEE rounding is not modelled. */
module Types {

  datatype Option<+T> = None | Some(value: T)

  /** A two-element JSON array `[a, b]`: a histogram path point or a contour vertex. */
  type Pair = (real, real)

  /** The keyed object `{x: a, y: b}` handed to the chart library. */
  datatype XY = XY(x: real, y: real)

  /** One `hist_maxmin` entry `[min, max]`: the axis domain of one parameter. */
  datatype Window = Window(lo: real, hi: real) {
    predicate Contains(v: real) {
      lo <= v <= hi
    }
  }

  /** One `param_error` entry `[key, median, minus, plus]`. */
  datatype ParamStat = ParamStat(key: string, median: real, minus: real, plus: real)

  /** One closed contour line, as a list of vertices. */
  type Segment = seq<Pair>

  /** Every contour line drawn at one credible level. */
  type Level = seq<Segment>

  /** One `contour_data` entry: the levels of one parameter pair. */
  type PairContours = seq<Level>

  /** The whole document. */
  datatype Dataset = Dataset(
    histData: seq<seq<Pair>>,
    contourData: seq<PairContours>,
    histMaxMin: seq<Window>,
    paramError: seq<ParamStat>)
}
