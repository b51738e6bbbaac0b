/** The response records the OHLCV endpoints return: a candle, the page
    metadata, and the envelope holding both. They carry no logic. */
module Responses {
  import opened PyDateTime

  /** `OHLCVData`: one candle. Prices and volume are the numbers `float()`
      gave; the model does no arithmetic on them. */
  datatype OhlcvData = OhlcvData(candleTime: DateTime, symbol: string,
                                 open: real, high: real, low: real, close: real, volume: real)

  /** `ResponseMetadata` */
  datatype ResponseMetadata = ResponseMetadata(totalRecords: int, limit: int, offset: int,
                                               hasMore: bool, queryTimeMs: real,
                                               timestamp: DateTime)

  /** `OHLCVResponse`, which is also the shape of the latest-candle response. */
  datatype OhlcvResponse = OhlcvResponse(success: bool, data: seq<OhlcvData>,
                                         metadata: ResponseMetadata)
}
