// Enumerations and records of include/uts/data_struct.h that the ledger, the order splitter
// and the order table work on. Quantities are unbounded integers.
module DataStruct {

  type Ticker = string

  datatype Option<+T> = None | Some(value: T)

  datatype Result<+T, +E> = Ok(value: T) | Err(error: E)

  datatype Exchange = NA | SHF | DCE | CZC | CFE | INE | SH | SZ | SGE | OC | HK

  datatype Direction = Long | Short

  datatype HedgeFlag = Speculation | Arbitrage | Hedge | Covered | MarketMaker

  datatype OpenClose = Auto | Open | Close | CloseToday | CloseYesterday | ForceClose | ForceOff | LocalForceOff

  datatype InstrumentIndex = InstrumentIndex(instrumentId: Ticker, direction: Direction, hedgeFlag: HedgeFlag)

  datatype HoldingRecord = HoldingRecord(
    exchange: Exchange,
    instrumentId: Ticker,
    direction: Direction,
    hedgeFlag: HedgeFlag,
    total: int,
    today: int,
    pre: int)

  type Holding = map<InstrumentIndex, HoldingRecord>

  // Price and time of a trade never reach the ledger and are not kept.
  datatype TradingRecord = TradingRecord(
    orderRef: int,
    exchange: Exchange,
    instrumentId: Ticker,
    openClose: OpenClose,
    direction: Direction,
    hedgeFlag: HedgeFlag,
    volume: int)

  // The position of `std::max` in the code, and of the `std::min` that the exchange rules in the
  // comments beside it call for.
  datatype Rule = AsWritten | Intended

  function Pick(rule: Rule, a: int, b: int): int {
    match rule
    case AsWritten => if a < b then b else a
    case Intended => if b < a then b else a
  }

  // The numeric values behind `enum class Direction`.
  function DirectionCode(d: Direction): int {
    match d
    case Long => 1
    case Short => -1
  }

  // The numeric values behind `enum class OpenCloseType`.
  function OpenCloseCode(oc: OpenClose): int {
    match oc
    case Auto => 0
    case Open => 1
    case Close => -1
    case CloseToday => -2
    case CloseYesterday => -3
    case ForceClose => -4
    case ForceOff => -5
    case LocalForceOff => -6
  }

  function EnumToPositiveOrNegative(mid: int): int {
    if mid > 0 then 1 else if mid < 0 then -1 else 0
  }

  function OpenCloseSign(oc: OpenClose): int {
    EnumToPositiveOrNegative(OpenCloseCode(oc))
  }

  function ReverseDirection(d: Direction): Direction {
    match d
    case Long => Short
    case Short => Long
  }
}
