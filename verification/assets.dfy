/** The asset endpoints of `src/api/v1/dex/assets.py`: the fetched list is sorted in
    place (by symbol, or by balance from the largest down), then filtered and projected
    onto the exported fields. `list.sort` is stable; the model sorts by stable insertion,
    and proves the order sorted, a permutation and stable, which fixes it uniquely. */
module Assets {
  import opened Common

  // ---------------------------------------------------------------------------
  // Entities
  // ---------------------------------------------------------------------------

  /** `AssetKind`. */
  datatype AssetKind = Jetton | Wton | Ton

  /** `Asset` as the wallet-assets service returns it, restricted to the fields read here. */
  datatype WalletAsset = WalletAsset(
    balance: int,
    blacklisted: bool,
    contractAddress: Address,
    decimals: int,
    displayName: Option<string>,
    imageUrl: Option<string>,
    kind: AssetKind,
    symbol: string,
    walletAddress: Option<Address>)

  /** An `AssetDao` row, restricted to the columns read here. */
  datatype AssetRow = AssetRow(
    blacklisted: bool,
    community: bool,
    contractAddress: Address,
    decimals: int,
    deprecated: bool,
    displayName: Option<string>,
    imageUrl: Option<string>,
    kind: AssetKind,
    symbol: string)

  /** `WalletAssetExport`. */
  datatype WalletAssetExport = WalletAssetExport(
    balance: int,
    imageUrl: Option<string>,
    kind: AssetKind,
    walletAddress: Option<Address>,
    symbol: string,
    decimals: int,
    contractAddress: Address,
    displayName: Option<string>)

  /** The three contract addresses listed whatever their flags (`config.ton`). */
  datatype ListingConfig = ListingConfig(tgrContractAddress: Address, fnzContractAddress: Address, scaleContractAddress: Address)

  // ---------------------------------------------------------------------------
  // String order
  // ---------------------------------------------------------------------------

  /** Python's `<` on strings: lexicographic by code point, a proper prefix first. */
  predicate StrLess(a: string, b: string) {
    if a == [] then b != []
    else if b == [] then false
    else if a[0] != b[0] then a[0] < b[0]
    else StrLess(a[1..], b[1..])
  }

  lemma {:induction false} StrLessIrreflexive(a: string)
    ensures !StrLess(a, a)
  {
    if a != [] {
      StrLessIrreflexive(a[1..]);
    }
  }

  lemma {:induction false} StrLessTransitive(a: string, b: string, c: string)
    requires StrLess(a, b) && StrLess(b, c)
    ensures StrLess(a, c)
  {
    if a != [] && b != [] && c != [] && a[0] == b[0] && b[0] == c[0] {
      StrLessTransitive(a[1..], b[1..], c[1..]);
    }
  }

  lemma {:induction false} StrLessTotal(a: string, b: string)
    requires a != b
    ensures StrLess(a, b) || StrLess(b, a)
  {
    if a != [] && b != [] && a[0] == b[0] {
      assert a == [a[0]] + a[1..] && b == [b[0]] + b[1..];
      StrLessTotal(a[1..], b[1..]);
    }
  }

  // ---------------------------------------------------------------------------
  // Orders and the stable sort
  // ---------------------------------------------------------------------------

  /** `less` orders like a sort key compared with `<`: irreflexive, transitive, and
      "not before" is transitive too. */
  ghost predicate StrictWeakOrder<T(!new)>(less: (T, T) -> bool) {
    && (forall x :: !less(x, x))
    && (forall x, y, z :: less(x, y) && less(y, z) ==> less(x, z))
    && (forall x, y, z :: !less(y, x) && !less(z, y) ==> !less(z, x))
  }

  /** No element is before one to its left. */
  ghost predicate Sorted<T>(s: seq<T>, less: (T, T) -> bool) {
    forall i, j :: 0 <= i < j < |s| ==> !less(s[j], s[i])
  }

  /** `x` placed after every element of `s` it is not before, scanning from the end. */
  function Insert<T>(s: seq<T>, x: T, less: (T, T) -> bool): (r: seq<T>)
    ensures |r| == |s| + 1
  {
    if s == [] || !less(x, s[|s| - 1]) then s + [x]
    else Insert(s[..|s| - 1], x, less) + [s[|s| - 1]]
  }

  /** Stable insertion sort. */
  function SortedBy<T>(s: seq<T>, less: (T, T) -> bool): (r: seq<T>)
    ensures |r| == |s|
  {
    if s == [] then [] else Insert(SortedBy(s[..|s| - 1], less), s[|s| - 1], less)
  }

  lemma {:induction false} InsertPermutes<T>(s: seq<T>, x: T, less: (T, T) -> bool)
    ensures multiset(Insert(s, x, less)) == multiset(s) + multiset{x}
  {
    if s != [] && less(x, s[|s| - 1]) {
      InsertPermutes(s[..|s| - 1], x, less);
      assert s == s[..|s| - 1] + [s[|s| - 1]];
    }
  }

  lemma {:induction false} InsertSorted<T(!new)>(s: seq<T>, x: T, less: (T, T) -> bool)
    requires StrictWeakOrder(less) && Sorted(s, less)
    ensures Sorted(Insert(s, x, less), less)
  {
    if s != [] && less(x, s[|s| - 1]) {
      var init := s[..|s| - 1];
      var last := s[|s| - 1];
      InsertSorted(init, x, less);
      InsertPermutes(init, x, less);
      var r := Insert(init, x, less);
      forall e | e in r ensures !less(last, e) {
        assert e in multiset(r);
        if e != x {
          assert e in multiset(init);
          var k :| 0 <= k < |init| && init[k] == e;
          assert s[k] == e;
        }
      }
      var t := r + [last];
      forall i, j | 0 <= i < j < |t| ensures !less(t[j], t[i]) {
        if j == |t| - 1 {
          assert t[i] in r;
        }
      }
    }
  }

  /** The stable sort orders its input. */
  lemma {:induction false} SortedBySorts<T(!new)>(s: seq<T>, less: (T, T) -> bool)
    requires StrictWeakOrder(less)
    ensures Sorted(SortedBy(s, less), less)
  {
    if s != [] {
      SortedBySorts(s[..|s| - 1], less);
      InsertSorted(SortedBy(s[..|s| - 1], less), s[|s| - 1], less);
    }
  }

  /** The stable sort keeps every element and nothing else. */
  lemma {:induction false} SortedByPermutes<T>(s: seq<T>, less: (T, T) -> bool)
    ensures multiset(SortedBy(s, less)) == multiset(s)
  {
    if s != [] {
      SortedByPermutes(s[..|s| - 1], less);
      InsertPermutes(SortedBy(s[..|s| - 1], less), s[|s| - 1], less);
      assert s == s[..|s| - 1] + [s[|s| - 1]];
    }
  }

  /** The elements of `s` that sort level with `y`, in their order in `s`. */
  function Level<T>(s: seq<T>, y: T, less: (T, T) -> bool): seq<T> {
    if s == [] then []
    else Level(s[..|s| - 1], y, less)
         + (if !less(s[|s| - 1], y) && !less(y, s[|s| - 1]) then [s[|s| - 1]] else [])
  }

  lemma {:induction false} LevelAppend<T>(s: seq<T>, t: seq<T>, y: T, less: (T, T) -> bool)
    ensures Level(s + t, y, less) == Level(s, y, less) + Level(t, y, less)
  {
    if t == [] {
      assert s + t == s;
    } else {
      assert (s + t)[..|s + t| - 1] == s + t[..|t| - 1];
      LevelAppend(s, t[..|t| - 1], y, less);
    }
  }

  lemma {:induction false} InsertStable<T(!new)>(s: seq<T>, x: T, y: T, less: (T, T) -> bool)
    requires StrictWeakOrder(less)
    ensures Level(Insert(s, x, less), y, less) == Level(s + [x], y, less)
  {
    if s != [] && less(x, s[|s| - 1]) {
      var init := s[..|s| - 1];
      var last := s[|s| - 1];
      InsertStable(init, x, y, less);
      LevelAppend(Insert(init, x, less), [last], y, less);
      LevelAppend(init + [x], [last], y, less);
      LevelAppend(init, [x], y, less);
      LevelAppend(init, [last], y, less);
      LevelAppend(init + [last], [x], y, less);
      assert s == init + [last];
      assert init + [x] + [last] == (init + [x]) + [last];
    }
  }

  /** The stable sort keeps elements that sort level with each other in their input
      order. */
  lemma {:induction false} SortedByStable<T(!new)>(s: seq<T>, y: T, less: (T, T) -> bool)
    requires StrictWeakOrder(less)
    ensures Level(SortedBy(s, less), y, less) == Level(s, y, less)
  {
    if s != [] {
      var init := s[..|s| - 1];
      var last := s[|s| - 1];
      var sortedInit := SortedBy(init, less);
      calc {
        Level(SortedBy(s, less), y, less);
        Level(Insert(sortedInit, last, less), y, less);
        { InsertStable(sortedInit, last, y, less); }
        Level(sortedInit + [last], y, less);
        { LevelAppend(sortedInit, [last], y, less); }
        Level(sortedInit, y, less) + Level([last], y, less);
        { SortedByStable(init, y, less); }
        Level(init, y, less) + Level([last], y, less);
        { LevelAppend(init, [last], y, less); assert s == init + [last]; }
        Level(s, y, less);
      }
    }
  }

  /** `list.sort` on the array: each element in turn is moved left past the elements
      it is before. */
  method SortInPlace<T>(a: array<T>, less: (T, T) -> bool)
    modifies a
    ensures a[..] == SortedBy(old(a[..]), less)
  {
    ghost var input := a[..];
    var i := 0;
    while i < a.Length
      invariant 0 <= i <= a.Length
      invariant a[..i] == SortedBy(input[..i], less)
      invariant a[i..] == input[i..]
    {
      InsertAt(a, i, less);
      assert input[..i + 1][..i] == input[..i];
      assert a[..i + 1] == SortedBy(input[..i + 1], less);
      i := i + 1;
    }
    assert a[..] == a[..a.Length];
    assert input == input[..a.Length];
  }

  /** Moves `a[i]` left into the prefix `a[..i]`. */
  method InsertAt<T>(a: array<T>, i: nat, less: (T, T) -> bool)
    requires i < a.Length
    modifies a
    ensures a[..i + 1] == Insert(old(a[..i]), old(a[i]), less)
    ensures a[i + 1..] == old(a[i + 1..])
  {
    var x := a[i];
    ghost var prefix := a[..i];
    var j := i;
    while j > 0 && less(x, a[j - 1])
      invariant 0 <= j <= i
      invariant a[..j] == prefix[..j]
      invariant a[j + 1..i + 1] == prefix[j..]
      invariant a[i + 1..] == old(a[i + 1..])
      invariant Insert(prefix, x, less) == Insert(prefix[..j], x, less) + prefix[j..]
    {
      assert prefix[..j][..j - 1] == prefix[..j - 1];
      a[j] := a[j - 1];
      j := j - 1;
    }
    assert j == 0 || !less(x, prefix[j - 1]);
    assert Insert(prefix[..j], x, less) == prefix[..j] + [x];
    a[j] := x;
    assert a[..i + 1] == prefix[..j] + [x] + prefix[j..];
  }

  // ---------------------------------------------------------------------------
  // get_assets_endpoint
  // ---------------------------------------------------------------------------

  /** `key=lambda asset: asset.symbol`. */
  predicate SymbolBefore(a: AssetRow, b: AssetRow) {
    StrLess(a.symbol, b.symbol)
  }

  lemma SymbolOrder()
    ensures StrictWeakOrder(SymbolBefore)
  {
    forall x: AssetRow ensures !SymbolBefore(x, x) {
      StrLessIrreflexive(x.symbol);
    }
    forall x: AssetRow, y: AssetRow, z: AssetRow | SymbolBefore(x, y) && SymbolBefore(y, z)
      ensures SymbolBefore(x, z)
    {
      StrLessTransitive(x.symbol, y.symbol, z.symbol);
    }
    forall x: AssetRow, y: AssetRow, z: AssetRow | !SymbolBefore(y, x) && !SymbolBefore(z, y)
      ensures !SymbolBefore(z, x)
    {
      if SymbolBefore(z, x) {
        if x.symbol != y.symbol {
          StrLessTotal(x.symbol, y.symbol);
          if y.symbol != z.symbol {
            StrLessTotal(y.symbol, z.symbol);
            StrLessTransitive(x.symbol, y.symbol, z.symbol);
            StrLessTransitive(z.symbol, x.symbol, y.symbol);
          }
          StrLessIrreflexive(x.symbol);
        } else if y.symbol != z.symbol {
          StrLessTotal(y.symbol, z.symbol);
        }
        StrLessIrreflexive(x.symbol);
        StrLessIrreflexive(z.symbol);
        if x.symbol != z.symbol {
          StrLessTransitive(z.symbol, x.symbol, z.symbol);
        }
      }
    }
  }

  /** The filter of `get_assets_endpoint`: an active asset (not blacklisted, not
      community, not deprecated), or one of the three configured contracts. */
  predicate Listed(asset: AssetRow, config: ListingConfig) {
    || (!asset.blacklisted && !asset.community && !asset.deprecated)
    || asset.contractAddress in {config.tgrContractAddress, config.fnzContractAddress, config.scaleContractAddress}
  }

  /** `WalletAssetExport.from_asset_dao`: no balance (0) and no wallet address. */
  function FromAssetDao(asset: AssetRow): (e: WalletAssetExport)
    ensures e.balance == 0 && e.walletAddress.None?
    ensures e.symbol == asset.symbol && e.contractAddress == asset.contractAddress
  {
    WalletAssetExport(0, asset.imageUrl, asset.kind, None, asset.symbol, asset.decimals,
                      asset.contractAddress, asset.displayName)
  }

  /** The comprehension: the listed assets, projected, in order. */
  function ListedExports(assets: seq<AssetRow>, config: ListingConfig): (exports: seq<WalletAssetExport>)
    ensures |exports| <= |assets|
  {
    if assets == [] then []
    else ListedExports(assets[..|assets| - 1], config)
         + (if Listed(assets[|assets| - 1], config) then [FromAssetDao(assets[|assets| - 1])] else [])
  }

  /** Every export is the projection of a listed asset, and every listed asset is
      exported. */
  lemma {:induction false} ListedExportsExactly(assets: seq<AssetRow>, config: ListingConfig)
    ensures forall e :: e in ListedExports(assets, config) ==>
              exists a :: a in assets && Listed(a, config) && e == FromAssetDao(a)
    ensures forall a :: a in assets && Listed(a, config) ==> FromAssetDao(a) in ListedExports(assets, config)
  {
    if assets != [] {
      var init := assets[..|assets| - 1];
      ListedExportsExactly(init, config);
      assert assets == init + [assets[|assets| - 1]];
    }
  }

  /** The configured contracts are exported whatever their flags. */
  lemma ConfiguredContractsAlwaysListed(asset: AssetRow, config: ListingConfig)
    requires asset.contractAddress == config.tgrContractAddress
             || asset.contractAddress == config.fnzContractAddress
             || asset.contractAddress == config.scaleContractAddress
    ensures Listed(asset, config)
  {
  }

  /** Exports of symbol-sorted assets are in symbol order. */
  lemma {:induction false} ListedExportsKeepSymbolOrder(assets: seq<AssetRow>, config: ListingConfig)
    requires Sorted(assets, SymbolBefore)
    ensures forall i, j :: 0 <= i < j < |ListedExports(assets, config)| ==>
              !StrLess(ListedExports(assets, config)[j].symbol, ListedExports(assets, config)[i].symbol)
  {
    if assets != [] {
      var init := assets[..|assets| - 1];
      var last := assets[|assets| - 1];
      ListedExportsKeepSymbolOrder(init, config);
      var prior := ListedExports(init, config);
      if Listed(last, config) {
        ListedExportsExactly(init, config);
        var e := prior + [FromAssetDao(last)];
        assert ListedExports(assets, config) == e;
        forall i | 0 <= i < |prior| ensures !StrLess(last.symbol, prior[i].symbol) {
          assert prior[i] in prior;
          var a :| a in init && Listed(a, config) && prior[i] == FromAssetDao(a);
          var k :| 0 <= k < |init| && init[k] == a;
          assert assets[k] == a;
        }
      } else {
        assert ListedExports(assets, config) == prior;
      }
    }
  }

  /** `get_assets_endpoint` on the fetched rows. */
  method GetAssetsEndpoint(assets: array<AssetRow>, config: ListingConfig) returns (exports: seq<WalletAssetExport>)
    modifies assets
    ensures assets[..] == SortedBy(old(assets[..]), SymbolBefore)
    ensures exports == ListedExports(assets[..], config)
  {
    SortInPlace(assets, SymbolBefore);
    exports := ListedExports(assets[..], config);
  }

  /** What `get_assets_endpoint` returns, in symbol order, with each listed row exported
      and nothing else. */
  lemma AssetsEndpointOrderedAndComplete(rows: seq<AssetRow>, config: ListingConfig)
    ensures var exports := ListedExports(SortedBy(rows, SymbolBefore), config);
            && |exports| <= |rows|
            && (forall i, j :: 0 <= i < j < |exports| ==> !StrLess(exports[j].symbol, exports[i].symbol))
            && (forall a :: a in rows && Listed(a, config) ==> FromAssetDao(a) in exports)
            && (forall e :: e in exports ==> exists a :: a in rows && Listed(a, config) && e == FromAssetDao(a))
  {
    var sorted := SortedBy(rows, SymbolBefore);
    SymbolOrder();
    SortedBySorts(rows, SymbolBefore);
    SortedByPermutes(rows, SymbolBefore);
    ListedExportsKeepSymbolOrder(sorted, config);
    ListedExportsExactly(sorted, config);
    forall a | a in rows ensures a in sorted {
      assert a in multiset(rows);
    }
    forall a | a in sorted ensures a in rows {
      assert a in multiset(sorted);
    }
  }

  // ---------------------------------------------------------------------------
  // get_balances_endpoint
  // ---------------------------------------------------------------------------

  /** `key=lambda asset: asset.balance` with `reverse=True`: larger balances first,
      equal balances in their original order. */
  predicate BalanceBefore(a: WalletAsset, b: WalletAsset) {
    a.balance > b.balance
  }

  lemma BalanceOrder()
    ensures StrictWeakOrder(BalanceBefore)
  {
  }

  /** `WalletAssetExport.from_walletAsset`. */
  function FromWalletAsset(asset: WalletAsset): (e: WalletAssetExport)
    ensures e.balance == asset.balance && e.walletAddress == asset.walletAddress
    ensures e.symbol == asset.symbol && e.contractAddress == asset.contractAddress
  {
    WalletAssetExport(asset.balance, asset.imageUrl, asset.kind, asset.walletAddress, asset.symbol,
                      asset.decimals, asset.contractAddress, asset.displayName)
  }

  /** The comprehension: the assets not blacklisted, projected, in order. */
  function BalanceExports(assets: seq<WalletAsset>): (exports: seq<WalletAssetExport>)
    ensures |exports| <= |assets|
  {
    if assets == [] then []
    else BalanceExports(assets[..|assets| - 1])
         + (if !assets[|assets| - 1].blacklisted then [FromWalletAsset(assets[|assets| - 1])] else [])
  }

  /** Every export comes from an asset that is not blacklisted, and every such asset is
      exported. */
  lemma {:induction false} BalanceExportsExactly(assets: seq<WalletAsset>)
    ensures forall e :: e in BalanceExports(assets) ==>
              exists a :: a in assets && !a.blacklisted && e == FromWalletAsset(a)
    ensures forall a :: a in assets && !a.blacklisted ==> FromWalletAsset(a) in BalanceExports(assets)
  {
    if assets != [] {
      var init := assets[..|assets| - 1];
      BalanceExportsExactly(init);
      assert assets == init + [assets[|assets| - 1]];
    }
  }

  /** Exports of balance-sorted assets are in balance order, largest first. */
  lemma {:induction false} BalanceExportsKeepOrder(assets: seq<WalletAsset>)
    requires Sorted(assets, BalanceBefore)
    ensures forall i, j :: 0 <= i < j < |BalanceExports(assets)| ==>
              BalanceExports(assets)[i].balance >= BalanceExports(assets)[j].balance
  {
    if assets != [] {
      var init := assets[..|assets| - 1];
      var last := assets[|assets| - 1];
      BalanceExportsKeepOrder(init);
      var prior := BalanceExports(init);
      if !last.blacklisted {
        BalanceExportsExactly(init);
        var e := prior + [FromWalletAsset(last)];
        assert BalanceExports(assets) == e;
        forall i | 0 <= i < |prior| ensures prior[i].balance >= last.balance {
          assert prior[i] in prior;
          var a :| a in init && !a.blacklisted && prior[i] == FromWalletAsset(a);
          var k :| 0 <= k < |init| && init[k] == a;
          assert assets[k] == a;
        }
      } else {
        assert BalanceExports(assets) == prior;
      }
    }
  }

  /** `get_balances_endpoint` on the fetched assets. */
  method GetBalancesEndpoint(assets: array<WalletAsset>) returns (exports: seq<WalletAssetExport>)
    modifies assets
    ensures assets[..] == SortedBy(old(assets[..]), BalanceBefore)
    ensures exports == BalanceExports(assets[..])
  {
    SortInPlace(assets, BalanceBefore);
    exports := BalanceExports(assets[..]);
  }

  /** What `get_balances_endpoint` returns: largest balance first, no blacklisted asset,
      every other asset exported. */
  lemma BalancesEndpointOrderedAndComplete(assets: seq<WalletAsset>)
    ensures var exports := BalanceExports(SortedBy(assets, BalanceBefore));
            && |exports| <= |assets|
            && (forall i, j :: 0 <= i < j < |exports| ==> exports[i].balance >= exports[j].balance)
            && (forall a :: a in assets && !a.blacklisted ==> FromWalletAsset(a) in exports)
            && (forall e :: e in exports ==> exists a :: a in assets && !a.blacklisted && e == FromWalletAsset(a))
  {
    var sorted := SortedBy(assets, BalanceBefore);
    BalanceOrder();
    SortedBySorts(assets, BalanceBefore);
    SortedByPermutes(assets, BalanceBefore);
    BalanceExportsKeepOrder(sorted);
    BalanceExportsExactly(sorted);
    forall a | a in assets ensures a in sorted {
      assert a in multiset(assets);
    }
    forall a | a in sorted ensures a in assets {
      assert a in multiset(sorted);
    }
  }
}
