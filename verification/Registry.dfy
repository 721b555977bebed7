/** The asset registry: canonical assets, derived denominations and their uniqueness. */
module Registry {
  import opened Base
  import opened Text

  datatype Asset = Asset(
    assetID: string,
    sourceChainID: string,
    sourceAssetKind: string,
    sourceAssetAddress: string,
    sourceContract: string,
    denom: string,
    destinationDenom: string,
    decimals: U32,
    displayName: string,
    displaySymbol: string,
    enabled: bool)

  type Assets = map<string, Asset>

  const NATIVE_ETH := "native_eth"
  const ERC20 := "erc20"

  datatype RegistryError = InvalidAsset | AssetAlreadyExists | AssetNotFound

  function CanonicalAsset(a: Asset): Asset {
    var name := Trim(a.displayName);
    var symbol := if Trim(a.displaySymbol) == "" then name else Trim(a.displaySymbol);
    var contract0 := Trim(a.sourceContract);
    var address := if Trim(a.sourceAssetAddress) == "" then contract0 else Trim(a.sourceAssetAddress);
    var contract := if contract0 == "" then address else contract0;
    var kind0 := Trim(a.sourceAssetKind);
    var kind := if kind0 == "" && address != "" then ERC20 else kind0;
    Asset(Trim(a.assetID), Trim(a.sourceChainID), kind, address, contract, Trim(a.denom),
          Trim(a.destinationDenom), a.decimals, name, symbol, a.enabled)
  }

  /** Drops dots, dashes and underscores. */
  function Stripped(s: string): string {
    if s == "" then ""
    else (if s[0] in ".-_" then "" else [s[0]]) + Stripped(s[1..])
  }

  function NormalizedSymbol(value: string): string {
    Lower(Trim(Stripped(value)))
  }

  function PrefixOf(assetID: string): string {
    NormalizedSymbol(Trim(assetID)[..Find(Trim(assetID), '.')])
  }

  function SuffixOf(assetID: string): string {
    var t := Trim(assetID);
    if Find(t, '.') == |t| then "" else NormalizedSymbol(t[Find(t, '.') + 1..])
  }

  function DeriveDenom(a: Asset): string {
    var prefix := if PrefixOf(a.assetID) == "" then "asset" else PrefixOf(a.assetID);
    if a.sourceAssetKind == NATIVE_ETH then "u" + prefix
    else if a.sourceAssetKind == ERC20 then
      var symbol0 := SuffixOf(a.assetID);
      var symbol1 := if symbol0 == "" then NormalizedSymbol(a.displaySymbol) else symbol0;
      "u" + prefix + (if symbol1 == "" then "token" else symbol1)
    else "u" + prefix + NormalizedSymbol(a.displaySymbol)
  }

  /** `deriveAssetMetadata(canonicalAsset(asset))`. */
  function Stored(asset: Asset): Asset {
    var a := CanonicalAsset(asset);
    a.(denom := DeriveDenom(a), destinationDenom := DeriveDenom(a))
  }

  predicate ValidAsset(a: Asset) {
    && Trim(a.assetID) != ""
    && Trim(a.sourceChainID) != ""
    && (a.sourceAssetKind == NATIVE_ETH || a.sourceAssetKind == ERC20)
    && (Trim(a.displaySymbol) != "" || Trim(a.displayName) != "")
    && (a.sourceAssetKind == ERC20 ==> Trim(a.sourceAssetAddress) != "" || Trim(a.sourceContract) != "")
    && a.decimals <= 18
  }

  /** `ensureDestinationDenomAvailable`: case-insensitive comparison against every other key. */
  predicate DenomTaken(assets: Assets, stored: Asset, key: string) {
    exists k | k in assets :: k != key && Lower(assets[k].destinationDenom) == Lower(stored.destinationDenom)
  }

  function StoreError(assets: Assets, s: Asset): Option<RegistryError> {
    if !ValidAsset(s) then Some(InvalidAsset)
    else if Trim(s.assetID) in assets then Some(AssetAlreadyExists)
    else if DenomTaken(assets, s, Trim(s.assetID)) then Some(AssetAlreadyExists)
    else None
  }

  function Store(assets: Assets, s: Asset): Assets {
    if StoreError(assets, s).None? then assets[Trim(s.assetID) := s] else assets
  }

  function RegisterError(assets: Assets, asset: Asset): Option<RegistryError> {
    StoreError(assets, Stored(asset))
  }

  function Register(assets: Assets, asset: Asset): Assets {
    Store(assets, Stored(asset))
  }

  function SetEnabled(assets: Assets, assetID: string, enabled: bool): Assets {
    var key := Trim(assetID);
    if key in assets then assets[key := assets[key].(enabled := enabled)] else assets
  }

  class RegistryKeeper {
    var assets: Assets

    constructor ()
      ensures assets == map[]
    {
      assets := map[];
    }

    method RegisterAsset(asset: Asset) returns (e: Option<RegistryError>)
      modifies this
      ensures e == RegisterError(old(assets), asset)
      ensures assets == Register(old(assets), asset)
    {
      var stored := Stored(asset);
      if !ValidAsset(stored) {
        return Some(InvalidAsset);
      }
      var key := Trim(stored.assetID);
      if key in assets {
        return Some(AssetAlreadyExists);
      }
      var keys := assets.Keys;
      while keys != {}
        invariant keys <= assets.Keys && assets == old(assets)
        invariant forall k | k in assets && k !in keys ::
            k == key || Lower(assets[k].destinationDenom) != Lower(stored.destinationDenom)
        decreases |keys|
      {
        var k :| k in keys;
        keys := keys - {k};
        if k != key && Lower(assets[k].destinationDenom) == Lower(stored.destinationDenom) {
          return Some(AssetAlreadyExists);
        }
      }
      assets := assets[key := stored];
      e := None;
    }

    method SetAssetEnabled(assetID: string, enabled: bool) returns (e: Option<RegistryError>)
      modifies this
      ensures e == if Trim(assetID) in old(assets) then None else Some(AssetNotFound)
      ensures assets == SetEnabled(old(assets), assetID, enabled)
    {
      var key := Trim(assetID);
      if key !in assets {
        return Some(AssetNotFound);
      }
      assets := assets[key := assets[key].(enabled := enabled)];
      e := None;
    }
  }

  // ---- what the ledger relies on ----------------------------------------------

  /** `bridgeDenomForAsset`. */
  function BridgeDenom(a: Asset): string {
    if Trim(a.destinationDenom) != "" then Trim(a.destinationDenom) else Trim(a.denom)
  }

  /** Every asset has one non-blank denomination, seen alike by bridge and bank, and shares it with no other asset. */
  ghost predicate RegistryInv(assets: Assets) {
    && (forall k | k in assets ::
          && assets[k].denom == assets[k].destinationDenom
          && Trim(assets[k].denom) != ""
          && Trim(assets[k].assetID) == k)
    && (forall j, k | j in assets && k in assets && j != k ::
          Lower(assets[j].destinationDenom) != Lower(assets[k].destinationDenom))
  }

  lemma DerivedDenomNotBlank(a: Asset)
    ensures Trim(DeriveDenom(a)) != ""
  {
    assert DeriveDenom(a)[0] == 'u';
    SolidHeadSurvives(DeriveDenom(a));
  }

  lemma StoredFacts(asset: Asset)
    ensures var s := Stored(asset);
      s.denom == s.destinationDenom && Trim(s.denom) != "" && Trim(s.assetID) == s.assetID
  {
    DerivedDenomNotBlank(CanonicalAsset(asset));
    TrimTwice(asset.assetID);
  }

  lemma StoreKeepsInv(assets: Assets, s: Asset)
    requires RegistryInv(assets)
    requires s.denom == s.destinationDenom && Trim(s.denom) != "" && Trim(s.assetID) == s.assetID
    ensures RegistryInv(Store(assets, s))
  {
    hide Trim, Lower, ValidAsset;
  }

  lemma RegisterKeepsInv(assets: Assets, asset: Asset)
    requires RegistryInv(assets)
    ensures RegistryInv(Register(assets, asset))
  {
    StoredFacts(asset);
    StoreKeepsInv(assets, Stored(asset));
  }

  lemma SetEnabledKeepsInv(assets: Assets, assetID: string, enabled: bool)
    requires RegistryInv(assets)
    ensures RegistryInv(SetEnabled(assets, assetID, enabled))
  {
    hide Trim, Lower;
  }

  /** No registry operation moves an existing asset to another denomination. */
  lemma DenomsAreFinal(assets: Assets, asset: Asset, assetID: string, enabled: bool, key: string)
    requires key in assets
    ensures key in Register(assets, asset) && Register(assets, asset)[key] == assets[key]
    ensures key in SetEnabled(assets, assetID, enabled)
    ensures BridgeDenom(SetEnabled(assets, assetID, enabled)[key]) == BridgeDenom(assets[key])
  {
    hide Trim, Lower, ValidAsset, Stored;
  }

  /** The denomination the bridge mints and burns is the one the bank debits. */
  lemma BridgeAndBankAgree(assets: Assets, key: string)
    requires RegistryInv(assets) && key in assets
    ensures BridgeDenom(assets[key]) == Trim(assets[key].denom) != ""
    ensures Trim(BridgeDenom(assets[key])) == BridgeDenom(assets[key])
  {
    hide Trim, Lower;
    TrimTwice(assets[key].denom);
  }

  // ---- what is stored ------------------------------------------------------------------------------

  /** A switch stores the flag it is given, for that asset and nothing else. */
  lemma SwitchExact(assets: Assets, assetID: string, enabled: bool)
    ensures var t := SetEnabled(assets, assetID, enabled);
      && t.Keys == assets.Keys
      && (forall k | k in assets && k != Trim(assetID) :: t[k] == assets[k])
      && (Trim(assetID) in assets ==>
            t[Trim(assetID)].enabled == enabled
            && t[Trim(assetID)].(enabled := assets[Trim(assetID)].enabled) == assets[Trim(assetID)])
  {
    hide Trim;
  }

  /** The asset address and the contract stand in for each other when one is missing. */
  predicate Placed(a: Asset, stored: Asset) {
    var address, contract := Trim(a.sourceAssetAddress), Trim(a.sourceContract);
    && stored.sourceAssetAddress == (if address != "" then address else contract)
    && stored.sourceContract == if contract != "" then contract else address
  }

  /** A registered asset keeps what it came with, trimmed, its kind inferred when it has an address. */
  lemma RegisterExact(assets: Assets, asset: Asset)
    requires RegisterError(assets, asset).None?
    ensures var t, key := Register(assets, asset), Trim(asset.assetID);
      && key != "" && key !in assets && t.Keys == assets.Keys + {key} && (forall k | k in assets :: t[k] == assets[k])
      && var s := t[key];
      && s.assetID == key && s.sourceChainID == Trim(asset.sourceChainID) != ""
      && Placed(asset, s) && s.decimals == asset.decimals <= 18 && s.enabled == asset.enabled
      && s.displayName == Trim(asset.displayName)
      && s.displaySymbol == (if Trim(asset.displaySymbol) != "" then Trim(asset.displaySymbol) else s.displayName)
      && s.sourceAssetKind == (if Trim(asset.sourceAssetKind) != "" then Trim(asset.sourceAssetKind) else ERC20)
      && (s.sourceAssetKind == NATIVE_ETH || s.sourceAssetKind == ERC20)
      && (s.sourceAssetKind == ERC20 ==> s.sourceAssetAddress != "")
      && s.denom == s.destinationDenom
      && (forall k | k in assets :: Lower(assets[k].destinationDenom) != Lower(s.denom))
  {
    TrimTwice(asset.assetID);
    TrimTwice(asset.sourceChainID);
    TrimTwice(asset.sourceAssetAddress);
    TrimTwice(asset.sourceContract);
    hide Trim, Lower, DeriveDenom;
  }

  /** Small letters and digits only. */
  predicate Plain(s: string) {
    s != "" && forall i | 0 <= i < |s| :: 'a' <= s[i] <= 'z' || '0' <= s[i] <= '9'
  }

  lemma {:induction false} PlainStays(s: string)
    requires s == "" || Plain(s)
    ensures Stripped(s) == s
  {
    if s != "" {
      assert s == [s[0]] + s[1..];
      PlainStays(s[1..]);
    }
  }

  lemma PlainSymbol(s: string)
    requires Plain(s)
    ensures NormalizedSymbol(s) == s && Trim(s) == s && '.' !in s
  {
    PlainStays(s);
    SolidEndsTrim(s);
    assert Lower(s) == s;
  }

  /** What denominations look like: `eth.usdc` becomes `uethusdc`, and the native asset of `eth` becomes `ueth`. */
  lemma DenomOfPlain(a: Asset, chain: string, symbol: string)
    requires Plain(chain) && Plain(symbol)
    ensures a.assetID == chain + "." + symbol && a.sourceAssetKind == ERC20 ==> DeriveDenom(a) == "u" + chain + symbol
    ensures a.assetID == chain && a.sourceAssetKind == NATIVE_ETH ==> DeriveDenom(a) == "u" + chain
    ensures a.assetID == chain && a.sourceAssetKind == ERC20 && a.displaySymbol == symbol ==>
      DeriveDenom(a) == "u" + chain + symbol
  {
    PlainSymbol(chain);
    PlainSymbol(symbol);
    var id := chain + "." + symbol;
    FindAt(chain, '.', symbol);
    SolidEndsTrim(id);
    hide Trim, Stripped, Lower;
    assert id[..|chain|] == chain && id[|chain| + 1..] == symbol && chain[..|chain|] == chain;
    assert id == chain + ['.'] + symbol;
  }

  /** An asset is registered exactly when it is complete, new, and its denomination is nobody else's. */
  lemma RegisterIff(assets: Assets, asset: Asset)
    ensures var key, kind := Trim(asset.assetID), Trim(asset.sourceAssetKind);
      var addressed := Trim(asset.sourceAssetAddress) != "" || Trim(asset.sourceContract) != "";
      var complete := key != "" && Trim(asset.sourceChainID) != "" && asset.decimals <= 18
        && (Trim(asset.displaySymbol) != "" || Trim(asset.displayName) != "")
        && (kind == "native_eth" || ((kind == "erc20" || kind == "") && addressed));
      && (RegisterError(assets, asset) == Some(InvalidAsset) <==> !complete)
      && (RegisterError(assets, asset) == Some(AssetAlreadyExists) <==>
            complete && (key in assets || exists k | k in assets ::
              k != key && Lower(assets[k].destinationDenom) == Lower(DeriveDenom(CanonicalAsset(asset)))))
  {
    TrimTwice(asset.assetID);
    TrimTwice(asset.sourceChainID);
    TrimTwice(asset.sourceAssetAddress);
    TrimTwice(asset.sourceContract);
    TrimTwice(asset.displaySymbol);
    TrimTwice(asset.displayName);
    hide Trim, Lower, DeriveDenom;
  }
}
