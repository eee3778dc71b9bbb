/** The service-layer records the handlers work with, `internal/services/models.go`.
    Go's `float64` fields are reals here; rounding is not modelled. */
module Models {
  /** An instant (`time.Time`), in nanoseconds; a larger value is a later instant. */
  type Time = int

  /** A stored stock recommendation. */
  datatype Recommendation = Recommendation(
    id: string, symbol: string, thesis: string, conviction: string, score: real,
    catalyst: string, createdAt: Time)

  /** A stock's recent performance, absolute and relative to the S&P 500. */
  datatype StockSnapshot = StockSnapshot(
    id: string, symbol: string, name: string, sector: string, industry: string,
    change30: real, change90: real, change365: real,
    vsSP500_30: real, vsSP500_90: real, vsSP500_365: real,
    conviction: string, thesis: string, updatedAt: Time)
}
