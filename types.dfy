/** The record shapes of the application: a held position, the fields the add
    screen hands to the ledger, the user record and its default value. */
module Types {

  /** One held stock position. `value` is stored, and is meant to equal
      `quantity * currentPrice`; `change` is the daily percentage change. */
  datatype Asset = Asset(
    id: string,
    name: string,
    code: string,
    quantity: real,
    cost: real,
    currentPrice: real,
    value: real,
    change: real,
    kind: string,
    icon: string)

  /** What the add screen passes to the ledger: an asset without id, change,
      icon, type and value. */
  datatype NewAsset = NewAsset(
    name: string,
    code: string,
    quantity: real,
    cost: real,
    currentPrice: real)

  /** The persisted user record. `companyFunds` and `dailyProfit` are derived
      from the asset list; `incentivePoints` is changed only by settlement. */
  datatype UserState = UserState(
    companyFunds: real,
    incentivePoints: int,
    dailyProfit: real,
    vipLevel: int,
    userId: string,
    isSimulationMode: bool,
    lastLoginDate: string)

  /** The user record used when nothing is stored. */
  const DefaultUser := UserState(0.0, 0, 0.0, 4, "88294105", false, "")

  /** The asset list used when nothing is stored. */
  const InitialAssets: seq<Asset> := []
}
