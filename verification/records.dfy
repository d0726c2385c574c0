/** The whitelisted in-place updates of `src/database/models/dex.py`: `AssetDao.update`
    and `PoolDao.update` copy onto the object only those keyword arguments whose key is
    in the method's whitelist. */
module Records {
  import opened Common

  /** A Python value assigned to an attribute; `setattr` does not check it against the
      column's declared type. */
  datatype Value = Null | Bool(b: bool) | Int(i: int) | Float(f: real) | Str(s: string)

  /** The keyword arguments of `update(**kwargs)`, in the order `kwargs.items()` yields them. */
  type Kwargs = seq<(string, Value)>

  /** The value the last kwarg named `key` carries (a dict holds at most one). */
  function LastValue(kwargs: Kwargs, key: string): (v: Option<Value>)
    ensures v.Some? <==> exists i :: 0 <= i < |kwargs| && kwargs[i].0 == key
    ensures v.Some? ==> (key, v.value) in kwargs
  {
    if kwargs == [] then None
    else if kwargs[|kwargs| - 1].0 == key then Some(kwargs[|kwargs| - 1].1)
    else
      var v := LastValue(kwargs[..|kwargs| - 1], key);
      assert forall i :: 0 <= i < |kwargs| - 1 ==> kwargs[..|kwargs| - 1][i] == kwargs[i];
      v
  }

  /** The kwargs whose key is in `keys`, in their order. */
  function Restricted(kwargs: Kwargs, keys: set<string>): (kept: Kwargs)
    ensures |kept| <= |kwargs|
    ensures forall kv :: kv in kept <==> kv in kwargs && kv.0 in keys
  {
    if kwargs == [] then []
    else
      var init := Restricted(kwargs[..|kwargs| - 1], keys);
      assert forall kv :: kv in kwargs <==> kv in kwargs[..|kwargs| - 1] || kv == kwargs[|kwargs| - 1];
      if kwargs[|kwargs| - 1].0 in keys then init + [kwargs[|kwargs| - 1]] else init
  }

  // ---------------------------------------------------------------------------
  // AssetDao
  // ---------------------------------------------------------------------------

  /** The mapped columns of `AssetDao`, in declaration order. */
  datatype AssetColumn =
    | Blacklisted
    | Community
    | ContractAddress
    | Decimals
    | DefaultSymbol
    | Deprecated
    | DexPriceUsd
    | DexUsdPrice
    | DisplayName
    | ImageUrl
    | Kind
    | Symbol
    | ThirdPartyPriceUsd
    | ThirdPartyUsdPrice

  /** The attribute name of a column. */
  function AssetColumnName(column: AssetColumn): string {
    match column
    case Blacklisted => "blacklisted"
    case Community => "community"
    case ContractAddress => "contract_address"
    case Decimals => "decimals"
    case DefaultSymbol => "default_symbol"
    case Deprecated => "deprecated"
    case DexPriceUsd => "dex_price_usd"
    case DexUsdPrice => "dex_usd_price"
    case DisplayName => "display_name"
    case ImageUrl => "image_url"
    case Kind => "kind"
    case Symbol => "symbol"
    case ThirdPartyPriceUsd => "third_party_price_usd"
    case ThirdPartyUsdPrice => "third_party_usd_price"
  }

  /** The keys `AssetDao.update` copies onto the object. */
  const AssetUpdateKeys: set<string> := {
    "symbol",
    "default_symbol",
    "blacklisted",
    "community",
    "deprecated",
    "dex_price_usd",
    "dex_usd_price",
    "display_name",
    "image_url",
    "third_party_price_usd",
    "third_party_usd_price"
  }

  /** The column a whitelisted key names. */
  function AssetColumnNamed(key: string): (column: AssetColumn)
    requires key in AssetUpdateKeys
    ensures AssetColumnName(column) == key
  {
    if key == "symbol" then AssetColumn.Symbol
    else if key == "default_symbol" then AssetColumn.DefaultSymbol
    else if key == "blacklisted" then AssetColumn.Blacklisted
    else if key == "community" then AssetColumn.Community
    else if key == "deprecated" then AssetColumn.Deprecated
    else if key == "dex_price_usd" then AssetColumn.DexPriceUsd
    else if key == "dex_usd_price" then AssetColumn.DexUsdPrice
    else if key == "display_name" then AssetColumn.DisplayName
    else if key == "image_url" then AssetColumn.ImageUrl
    else if key == "third_party_price_usd" then AssetColumn.ThirdPartyPriceUsd
    else AssetColumn.ThirdPartyUsdPrice
  }

  /** A whitelisted column is found again from its name. */
  lemma AssetColumnNamedInverts(column: AssetColumn)
    requires AssetColumnName(column) in AssetUpdateKeys
    ensures AssetColumnNamed(AssetColumnName(column)) == column
  {
  }

  /** The values of all columns of one `AssetDao` object. */
  datatype AssetRecord = AssetRecord(
    blacklisted: Value,
    community: Value,
    contractAddress: Value,
    decimals: Value,
    defaultSymbol: Value,
    deprecated: Value,
    dexPriceUsd: Value,
    dexUsdPrice: Value,
    displayName: Value,
    imageUrl: Value,
    kind: Value,
    symbol: Value,
    thirdPartyPriceUsd: Value,
    thirdPartyUsdPrice: Value)

  function AssetField(row: AssetRecord, column: AssetColumn): Value {
    match column
    case Blacklisted => row.blacklisted
    case Community => row.community
    case ContractAddress => row.contractAddress
    case Decimals => row.decimals
    case DefaultSymbol => row.defaultSymbol
    case Deprecated => row.deprecated
    case DexPriceUsd => row.dexPriceUsd
    case DexUsdPrice => row.dexUsdPrice
    case DisplayName => row.displayName
    case ImageUrl => row.imageUrl
    case Kind => row.kind
    case Symbol => row.symbol
    case ThirdPartyPriceUsd => row.thirdPartyPriceUsd
    case ThirdPartyUsdPrice => row.thirdPartyUsdPrice
  }

  /** `setattr(self, name, value)` on a row: that one column takes the value. */
  function AssetWith(row: AssetRecord, column: AssetColumn, value: Value): AssetRecord {
    match column
    case Blacklisted => row.(blacklisted := value)
    case Community => row.(community := value)
    case ContractAddress => row.(contractAddress := value)
    case Decimals => row.(decimals := value)
    case DefaultSymbol => row.(defaultSymbol := value)
    case Deprecated => row.(deprecated := value)
    case DexPriceUsd => row.(dexPriceUsd := value)
    case DexUsdPrice => row.(dexUsdPrice := value)
    case DisplayName => row.(displayName := value)
    case ImageUrl => row.(imageUrl := value)
    case Kind => row.(kind := value)
    case Symbol => row.(symbol := value)
    case ThirdPartyPriceUsd => row.(thirdPartyPriceUsd := value)
    case ThirdPartyUsdPrice => row.(thirdPartyUsdPrice := value)
  }

  /** Setting a column changes that column and no other. */
  lemma AssetWithSetsOneColumn(row: AssetRecord, column: AssetColumn, value: Value)
    ensures forall other :: AssetField(AssetWith(row, column, value), other)
              == if other == column then value else AssetField(row, other)
  {
  }

  /** One iteration of the update loop. */
  function AssetStep(row: AssetRecord, kwarg: (string, Value)): AssetRecord {
    if kwarg.0 in AssetUpdateKeys then AssetWith(row, AssetColumnNamed(kwarg.0), kwarg.1) else row
  }

  /** `AssetDao.update(**kwargs)` on a row: the loop's steps in order. */
  function AssetUpdated(row: AssetRecord, kwargs: Kwargs): AssetRecord
    decreases |kwargs|
  {
    if kwargs == [] then row
    else AssetStep(AssetUpdated(row, kwargs[..|kwargs| - 1]), kwargs[|kwargs| - 1])
  }

  /** After the update a column holds the value the last kwarg of its name assigned when
      its name is whitelisted and some kwarg names it; every other column is unchanged. */
  lemma {:induction false} AssetUpdateAssignsWhitelisted(row: AssetRecord, kwargs: Kwargs)
    ensures forall column :: AssetField(AssetUpdated(row, kwargs), column)
              == (if AssetColumnName(column) in AssetUpdateKeys && LastValue(kwargs, AssetColumnName(column)).Some?
                  then LastValue(kwargs, AssetColumnName(column)).value
                  else AssetField(row, column))
  {
    if kwargs != [] {
      var init, last := kwargs[..|kwargs| - 1], kwargs[|kwargs| - 1];
      AssetUpdateAssignsWhitelisted(row, init);
      forall column
        ensures AssetField(AssetUpdated(row, kwargs), column)
             == (if AssetColumnName(column) in AssetUpdateKeys && LastValue(kwargs, AssetColumnName(column)).Some?
                 then LastValue(kwargs, AssetColumnName(column)).value
                 else AssetField(row, column))
      {
        if last.0 in AssetUpdateKeys {
          AssetWithSetsOneColumn(AssetUpdated(row, init), AssetColumnNamed(last.0), last.1);
        }
        if AssetColumnName(column) == last.0 && last.0 in AssetUpdateKeys {
          AssetColumnNamedInverts(column);
        }
      }
    }
  }

  lemma AssetContractAddressNotWhitelisted()
    ensures "contract_address" !in AssetUpdateKeys
  {
  }

  lemma AssetDecimalsNotWhitelisted()
    ensures "decimals" !in AssetUpdateKeys
  {
  }

  lemma AssetKindNotWhitelisted()
    ensures "kind" !in AssetUpdateKeys
  {
  }

  /** The contract address, the decimals and the kind of an asset are never updated. */
  lemma {:induction false} AssetIdentityColumnsFixed(row: AssetRecord, kwargs: Kwargs)
    ensures var row' := AssetUpdated(row, kwargs);
            row'.contractAddress == row.contractAddress && row'.decimals == row.decimals && row'.kind == row.kind
  {
    AssetUpdateAssignsWhitelisted(row, kwargs);
    AssetContractAddressNotWhitelisted();
    AssetDecimalsNotWhitelisted();
    AssetKindNotWhitelisted();
    assert AssetField(AssetUpdated(row, kwargs), AssetColumn.ContractAddress) == AssetField(row, AssetColumn.ContractAddress);
    assert AssetField(AssetUpdated(row, kwargs), AssetColumn.Decimals) == AssetField(row, AssetColumn.Decimals);
    assert AssetField(AssetUpdated(row, kwargs), AssetColumn.Kind) == AssetField(row, AssetColumn.Kind);
  }

  /** Applying the same kwargs twice leaves every column as applying them once. */
  lemma {:induction false} AssetUpdateIdempotent(row: AssetRecord, kwargs: Kwargs)
    ensures forall column :: AssetField(AssetUpdated(AssetUpdated(row, kwargs), kwargs), column)
                          == AssetField(AssetUpdated(row, kwargs), column)
  {
    AssetUpdateAssignsWhitelisted(row, kwargs);
    AssetUpdateAssignsWhitelisted(AssetUpdated(row, kwargs), kwargs);
  }

  /** Kwargs outside the whitelist have no effect: updating with only the whitelisted
      ones gives the same object. */
  lemma {:induction false} AssetUnknownKeysIgnored(row: AssetRecord, kwargs: Kwargs)
    ensures AssetUpdated(row, kwargs) == AssetUpdated(row, Restricted(kwargs, AssetUpdateKeys))
  {
    if kwargs != [] {
      var init, last := kwargs[..|kwargs| - 1], kwargs[|kwargs| - 1];
      AssetUnknownKeysIgnored(row, init);
      if last.0 in AssetUpdateKeys {
        var kept := Restricted(kwargs, AssetUpdateKeys);
        assert kept[..|kept| - 1] == Restricted(init, AssetUpdateKeys);
      }
    }
  }

  /** A `AssetDao` object: one field per mapped column. */
  class AssetDao {
    var blacklisted: Value
    var community: Value
    var contractAddress: Value
    var decimals: Value
    var defaultSymbol: Value
    var deprecated: Value
    var dexPriceUsd: Value
    var dexUsdPrice: Value
    var displayName: Value
    var imageUrl: Value
    var kind: Value
    var symbol: Value
    var thirdPartyPriceUsd: Value
    var thirdPartyUsdPrice: Value

    constructor (row: AssetRecord)
      ensures Row() == row
    {
      blacklisted := row.blacklisted;
      community := row.community;
      contractAddress := row.contractAddress;
      decimals := row.decimals;
      defaultSymbol := row.defaultSymbol;
      deprecated := row.deprecated;
      dexPriceUsd := row.dexPriceUsd;
      dexUsdPrice := row.dexUsdPrice;
      displayName := row.displayName;
      imageUrl := row.imageUrl;
      kind := row.kind;
      symbol := row.symbol;
      thirdPartyPriceUsd := row.thirdPartyPriceUsd;
      thirdPartyUsdPrice := row.thirdPartyUsdPrice;
    }

    function Row(): AssetRecord
      reads this
    {
      AssetRecord(blacklisted, community, contractAddress, decimals, defaultSymbol, deprecated, dexPriceUsd, dexUsdPrice, displayName, imageUrl, kind, symbol, thirdPartyPriceUsd, thirdPartyUsdPrice)
    }

    /** `setattr(self, key, value)` for a column. */
    method SetAttr(column: AssetColumn, value: Value)
      modifies this
      ensures Row() == AssetWith(old(Row()), column, value)
    {
      match column
      case Blacklisted => blacklisted := value;
      case Community => community := value;
      case ContractAddress => contractAddress := value;
      case Decimals => decimals := value;
      case DefaultSymbol => defaultSymbol := value;
      case Deprecated => deprecated := value;
      case DexPriceUsd => dexPriceUsd := value;
      case DexUsdPrice => dexUsdPrice := value;
      case DisplayName => displayName := value;
      case ImageUrl => imageUrl := value;
      case Kind => kind := value;
      case Symbol => symbol := value;
      case ThirdPartyPriceUsd => thirdPartyPriceUsd := value;
      case ThirdPartyUsdPrice => thirdPartyUsdPrice := value;
    }

    /** `AssetDao.update(**kwargs)`: copy the whitelisted kwargs onto the object, in order. */
    method Update(kwargs: Kwargs)
      modifies this
      ensures Row() == AssetUpdated(old(Row()), kwargs)
    {
      for i := 0 to |kwargs|
        invariant Row() == AssetUpdated(old(Row()), kwargs[..i])
      {
        var (key, value) := kwargs[i];
        if key in AssetUpdateKeys {
          SetAttr(AssetColumnNamed(key), value);
        }
        assert kwargs[..i + 1][..i] == kwargs[..i];
      }
      assert kwargs[..|kwargs|] == kwargs;
    }
  }

  // ---------------------------------------------------------------------------
  // PoolDao
  // ---------------------------------------------------------------------------

  /** The mapped columns of `PoolDao`, in declaration order. */
  datatype PoolColumn =
    | Address
    | Apy1D
    | Apy30D
    | Apy7D
    | CollectedToken0ProtocolFee
    | CollectedToken1ProtocolFee
    | Deprecated
    | LpAccountAddress
    | LpBalance
    | LpFee
    | LpPriceUsd
    | LpTotalSupply
    | LpTotalSupplyUsd
    | LpWalletAddress
    | ProtocolFee
    | ProtocolFeeAddress
    | RefFee
    | Reserve0
    | Reserve1
    | RouterAddress
    | Token0Address
    | Token0Balance
    | Token1Address
    | Token1Balance

  /** The attribute name of a column. */
  function PoolColumnName(column: PoolColumn): string {
    match column
    case Address => "address"
    case Apy1D => "apy_1d"
    case Apy30D => "apy_30d"
    case Apy7D => "apy_7d"
    case CollectedToken0ProtocolFee => "collected_token0_protocol_fee"
    case CollectedToken1ProtocolFee => "collected_token1_protocol_fee"
    case Deprecated => "deprecated"
    case LpAccountAddress => "lp_account_address"
    case LpBalance => "lp_balance"
    case LpFee => "lp_fee"
    case LpPriceUsd => "lp_price_usd"
    case LpTotalSupply => "lp_total_supply"
    case LpTotalSupplyUsd => "lp_total_supply_usd"
    case LpWalletAddress => "lp_wallet_address"
    case ProtocolFee => "protocol_fee"
    case ProtocolFeeAddress => "protocol_fee_address"
    case RefFee => "ref_fee"
    case Reserve0 => "reserve0"
    case Reserve1 => "reserve1"
    case RouterAddress => "router_address"
    case Token0Address => "token0_address"
    case Token0Balance => "token0_balance"
    case Token1Address => "token1_address"
    case Token1Balance => "token1_balance"
  }

  /** The keys `PoolDao.update` copies onto the object. */
  const PoolUpdateKeys: set<string> := {
    "apy_1d",
    "apy_30d",
    "apy_7d",
    "collected_token0_protocol_fee",
    "collected_token1_protocol_fee",
    "deprecated",
    "lp_account_address",
    "lp_balance",
    "lp_fee",
    "lp_price_usd",
    "lp_total_supply",
    "lp_total_supply_usd",
    "lp_wallet_address",
    "protocol_fee",
    "protocol_fee_address",
    "ref_fee",
    "reserve0",
    "reserve1",
    "router_address",
    "token0_balance",
    "token1_balance"
  }

  /** The column a whitelisted key names. */
  function PoolColumnNamed(key: string): (column: PoolColumn)
    requires key in PoolUpdateKeys
    ensures PoolColumnName(column) == key
  {
    if key == "apy_1d" then PoolColumn.Apy1D
    else if key == "apy_30d" then PoolColumn.Apy30D
    else if key == "apy_7d" then PoolColumn.Apy7D
    else if key == "collected_token0_protocol_fee" then PoolColumn.CollectedToken0ProtocolFee
    else if key == "collected_token1_protocol_fee" then PoolColumn.CollectedToken1ProtocolFee
    else if key == "deprecated" then PoolColumn.Deprecated
    else if key == "lp_account_address" then PoolColumn.LpAccountAddress
    else if key == "lp_balance" then PoolColumn.LpBalance
    else if key == "lp_fee" then PoolColumn.LpFee
    else if key == "lp_price_usd" then PoolColumn.LpPriceUsd
    else if key == "lp_total_supply" then PoolColumn.LpTotalSupply
    else if key == "lp_total_supply_usd" then PoolColumn.LpTotalSupplyUsd
    else if key == "lp_wallet_address" then PoolColumn.LpWalletAddress
    else if key == "protocol_fee" then PoolColumn.ProtocolFee
    else if key == "protocol_fee_address" then PoolColumn.ProtocolFeeAddress
    else if key == "ref_fee" then PoolColumn.RefFee
    else if key == "reserve0" then PoolColumn.Reserve0
    else if key == "reserve1" then PoolColumn.Reserve1
    else if key == "router_address" then PoolColumn.RouterAddress
    else if key == "token0_balance" then PoolColumn.Token0Balance
    else PoolColumn.Token1Balance
  }

  /** A whitelisted column is found again from its name. */
  lemma PoolColumnNamedInverts(column: PoolColumn)
    requires PoolColumnName(column) in PoolUpdateKeys
    ensures PoolColumnNamed(PoolColumnName(column)) == column
  {
  }

  /** The attributes of one `PoolDao` object, by column. */
  type PoolRecord = map<PoolColumn, Value>

  /** A column the object holds no value for reads as None. */
  function PoolField(row: PoolRecord, column: PoolColumn): Value {
    if column in row then row[column] else Null
  }

  /** `setattr(self, name, value)` on a row: that one column takes the value. */
  function PoolWith(row: PoolRecord, column: PoolColumn, value: Value): PoolRecord {
    row[column := value]
  }

  /** Setting a column changes that column and no other. */
  lemma PoolWithSetsOneColumn(row: PoolRecord, column: PoolColumn, value: Value)
    ensures forall other :: PoolField(PoolWith(row, column, value), other)
              == if other == column then value else PoolField(row, other)
  {
  }

  /** One iteration of the update loop. */
  function PoolStep(row: PoolRecord, kwarg: (string, Value)): PoolRecord {
    if kwarg.0 in PoolUpdateKeys then PoolWith(row, PoolColumnNamed(kwarg.0), kwarg.1) else row
  }

  /** `PoolDao.update(**kwargs)` on a row: the loop's steps in order. */
  function PoolUpdated(row: PoolRecord, kwargs: Kwargs): PoolRecord
    decreases |kwargs|
  {
    if kwargs == [] then row
    else PoolStep(PoolUpdated(row, kwargs[..|kwargs| - 1]), kwargs[|kwargs| - 1])
  }

  /** After the update a column holds the value the last kwarg of its name assigned when
      its name is whitelisted and some kwarg names it; every other column is unchanged. */
  lemma {:induction false} PoolUpdateAssignsWhitelisted(row: PoolRecord, kwargs: Kwargs)
    ensures forall column :: PoolField(PoolUpdated(row, kwargs), column)
              == (if PoolColumnName(column) in PoolUpdateKeys && LastValue(kwargs, PoolColumnName(column)).Some?
                  then LastValue(kwargs, PoolColumnName(column)).value
                  else PoolField(row, column))
  {
    if kwargs != [] {
      var init, last := kwargs[..|kwargs| - 1], kwargs[|kwargs| - 1];
      PoolUpdateAssignsWhitelisted(row, init);
      forall column
        ensures PoolField(PoolUpdated(row, kwargs), column)
             == (if PoolColumnName(column) in PoolUpdateKeys && LastValue(kwargs, PoolColumnName(column)).Some?
                 then LastValue(kwargs, PoolColumnName(column)).value
                 else PoolField(row, column))
      {
        if last.0 in PoolUpdateKeys {
          PoolWithSetsOneColumn(PoolUpdated(row, init), PoolColumnNamed(last.0), last.1);
        }
        if PoolColumnName(column) == last.0 && last.0 in PoolUpdateKeys {
          PoolColumnNamedInverts(column);
        }
      }
    }
  }

  lemma PoolAddressNotWhitelisted()
    ensures "address" !in PoolUpdateKeys
  {
  }

  lemma PoolToken0AddressNotWhitelisted()
    ensures "token0_address" !in PoolUpdateKeys
  {
  }

  lemma PoolToken1AddressNotWhitelisted()
    ensures "token1_address" !in PoolUpdateKeys
  {
  }

  /** The address of a pool and the addresses of its two tokens are never updated. */
  lemma {:induction false} PoolIdentityColumnsFixed(row: PoolRecord, kwargs: Kwargs)
    ensures var row' := PoolUpdated(row, kwargs);
            PoolField(row', PoolColumn.Address) == PoolField(row, PoolColumn.Address) && PoolField(row', PoolColumn.Token0Address) == PoolField(row, PoolColumn.Token0Address) && PoolField(row', PoolColumn.Token1Address) == PoolField(row, PoolColumn.Token1Address)
  {
    PoolUpdateAssignsWhitelisted(row, kwargs);
    PoolAddressNotWhitelisted();
    PoolToken0AddressNotWhitelisted();
    PoolToken1AddressNotWhitelisted();
    assert PoolField(PoolUpdated(row, kwargs), PoolColumn.Address) == PoolField(row, PoolColumn.Address);
    assert PoolField(PoolUpdated(row, kwargs), PoolColumn.Token0Address) == PoolField(row, PoolColumn.Token0Address);
    assert PoolField(PoolUpdated(row, kwargs), PoolColumn.Token1Address) == PoolField(row, PoolColumn.Token1Address);
  }

  /** Applying the same kwargs twice leaves every column as applying them once. */
  lemma {:induction false} PoolUpdateIdempotent(row: PoolRecord, kwargs: Kwargs)
    ensures forall column :: PoolField(PoolUpdated(PoolUpdated(row, kwargs), kwargs), column)
                          == PoolField(PoolUpdated(row, kwargs), column)
  {
    PoolUpdateAssignsWhitelisted(row, kwargs);
    PoolUpdateAssignsWhitelisted(PoolUpdated(row, kwargs), kwargs);
  }

  /** Kwargs outside the whitelist have no effect: updating with only the whitelisted
      ones gives the same object. */
  lemma {:induction false} PoolUnknownKeysIgnored(row: PoolRecord, kwargs: Kwargs)
    ensures PoolUpdated(row, kwargs) == PoolUpdated(row, Restricted(kwargs, PoolUpdateKeys))
  {
    if kwargs != [] {
      var init, last := kwargs[..|kwargs| - 1], kwargs[|kwargs| - 1];
      PoolUnknownKeysIgnored(row, init);
      if last.0 in PoolUpdateKeys {
        var kept := Restricted(kwargs, PoolUpdateKeys);
        assert kept[..|kept| - 1] == Restricted(init, PoolUpdateKeys);
      }
    }
  }

  /** A `PoolDao` object: its mapped columns, held as the instance's attribute values. */
  class PoolDao {
    var attributes: PoolRecord

    constructor (row: PoolRecord)
      ensures Row() == row
    {
      attributes := row;
    }

    function Row(): PoolRecord
      reads this
    {
      attributes
    }

    /** `setattr(self, key, value)` for a column. */
    method SetAttr(column: PoolColumn, value: Value)
      modifies this
      ensures Row() == PoolWith(old(Row()), column, value)
    {
      attributes := attributes[column := value];
    }

    /** `PoolDao.update(**kwargs)`: copy the whitelisted kwargs onto the object, in order. */
    method Update(kwargs: Kwargs)
      modifies this
      ensures Row() == PoolUpdated(old(Row()), kwargs)
    {
      for i := 0 to |kwargs|
        invariant Row() == PoolUpdated(old(Row()), kwargs[..i])
      {
        var (key, value) := kwargs[i];
        if key in PoolUpdateKeys {
          SetAttr(PoolColumnNamed(key), value);
        }
        assert kwargs[..i + 1][..i] == kwargs[..i];
      }
      assert kwargs[..|kwargs|] == kwargs;
    }
  }
}
