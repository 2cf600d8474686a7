/** The configuration shapes of `backend/app/config.py`: one `FeedConfig` per
    exchange feed, and the `AppConfig` object the service and the engine share
    and both update in place. */
module AppConfigs {

  datatype FeedConfig = FeedConfig(
    name: string,
    kind: string,
    fee: real,
    enabled: bool,
    priceOffset: real,
    volatility: real,
    depthLevels: int)

  /** The shared application configuration. `simulationVolumeUsd` is the
      attribute the engine and the service read and write; it is part of the
      object here. */
  class AppConfig {
    var symbol: string
    var tradeSize: real
    var transferCostUsd: real
    var startingBalanceUsd: real
    var autoSimulateExecution: bool
    var opportunityThresholdUsd: real
    var simulationVolumeUsd: real
    var feeds: seq<FeedConfig>

    constructor(symbol: string, tradeSize: real, transferCostUsd: real, startingBalanceUsd: real,
                autoSimulateExecution: bool, opportunityThresholdUsd: real, simulationVolumeUsd: real,
                feeds: seq<FeedConfig>)
      ensures this.symbol == symbol && this.tradeSize == tradeSize
      ensures this.transferCostUsd == transferCostUsd && this.startingBalanceUsd == startingBalanceUsd
      ensures this.autoSimulateExecution == autoSimulateExecution
      ensures this.opportunityThresholdUsd == opportunityThresholdUsd
      ensures this.simulationVolumeUsd == simulationVolumeUsd && this.feeds == feeds
    {
      this.symbol := symbol;
      this.tradeSize := tradeSize;
      this.transferCostUsd := transferCostUsd;
      this.startingBalanceUsd := startingBalanceUsd;
      this.autoSimulateExecution := autoSimulateExecution;
      this.opportunityThresholdUsd := opportunityThresholdUsd;
      this.simulationVolumeUsd := simulationVolumeUsd;
      this.feeds := feeds;
    }
  }
}
