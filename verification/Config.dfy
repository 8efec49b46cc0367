/**
 Validating the configuration (tunnel/config/config.go): one pass that fills in defaults and checks
 fields as it goes.
 */
module Config {
  import opened Wrappers
  import opened Text
  import opened ChainId
  import Hex
  import Attest

  /** The fields Validate reads or writes. */
  datatype Data = Data(
    robotID: string,
    evmPayeeAddress: string,
    stakingAddress: string,
    stakingPrivateKey: string,
    price: string,
    network: string,
    tokenAddress: string,
    tokenName: string,
    tokenVersion: string,
    tokenDecimals: int,
    tokenTransferMethod: string,
    tokenSupportsEIP2612: bool,
    mppEnabled: bool,
    mppNetwork: string,
    mppPayeeAddress: string,
    mppCurrency: string,
    mppDecimals: int,
    mppRealm: string,
    mppRPCURL: string,
    mppSecretKey: string)

  datatype Error =
    | InvalidPrice(value: string)
    | InvalidNetwork(value: string)
    | PayeeMissing
    | InvalidPayee(value: string)
    | StakingMissing
    | InvalidStaking(value: string)
    | KeyNotSet
    | KeyUnusable
    | KeyMismatch(derived: Attest.Address)
    | InvalidToken(value: string)
    | TokenNeedsEip155(network: string)
    | InvalidTokenDecimals(decimals: int)
    | InvalidTransferMethod(value: string)
    | Eip2612NeedsPermit2
    | TokenNameRequired(transferMethod: string)
    | InvalidMPPNetwork(value: string)
    | MPPNeedsEip155(network: string)
    | RPCURLRequired(network: string)
    | InvalidMPPPayee(value: string)
    | InvalidMPPCurrency(value: string)
    | InvalidMPPDecimals(decimals: int)
    | SecretKeyTooShort

  const DEFAULT_PRICE := "0.001"
  const DEFAULT_NETWORK := "eip155:8453"
  const DEFAULT_TOKEN_VERSION := "1"
  const DEFAULT_DECIMALS := 6
  const MAX_DECIMALS := 36
  const EIP3009 := "eip3009"
  const PERMIT2 := "permit2"
  const DEFAULT_MPP_NETWORK := "eip155:4217"
  const TEMPO_MAINNET := 4217
  const TEMPO_MODERATO := 42431
  const MIN_SECRET_KEY_BYTES := 32

  // ---- the three regular expressions ----

  /** Digits up to `n`, and if that is not the end, a point and more digits. */
  predicate IsAmountSplitAt(t: string, n: nat) {
    && 0 < n <= |t| && AllDigits(t[..n])
    && (n == |t| || (t[n] == '.' && n + 1 < |t| && AllDigits(t[n + 1..])))
  }

  /** ^\$?\d+(\.\d+)?$ */
  predicate IsPrice(s: string) {
    var t := TrimPrefix(s, "$");
    exists n: nat :: n <= |t| && IsAmountSplitAt(t, n)
  }

  predicate IsNamespaceChar(c: char) { 'a' <= c <= 'z' || IsDigit(c) }

  predicate IsReferenceChar(c: char) { c in {'-', '_'} || 'a' <= c <= 'z' || 'A' <= c <= 'Z' || IsDigit(c) }

  predicate IsNetworkSplitAt(s: string, i: nat) {
    && 3 <= i <= 8 && i < |s| && s[i] == ':'
    && (forall k :: 0 <= k < i ==> IsNamespaceChar(s[k]))
    && 1 <= |s| - i - 1 <= 32
    && (forall k :: i < k < |s| ==> IsReferenceChar(s[k]))
  }

  /** ^[a-z0-9]{3,8}:[-_a-zA-Z0-9]{1,32}$ */
  predicate IsNetwork(s: string) { exists i: nat :: i < |s| && IsNetworkSplitAt(s, i) }

  /** ^0x[0-9a-fA-F]{40}$ */
  predicate IsAddress(s: string) { |s| == 42 && HasPrefix(s, "0x") && Hex.IsHex(s[2..]) }

  // ---- the stages of Validate ----

  /** The configuration as a stage leaves it, and the error it stopped at. */
  datatype Checked = Checked(data: Data, error: Option<Error>)

  function Accept(c: Data): Checked { Checked(c, None) }
  function Reject(c: Data, e: Error): Checked { Checked(c, Some(e)) }

  function OrDefault(value: string, default: string): string { if value == "" then default else value }
  function OrDefaultInt(value: int, default: int): int { if value == 0 then default else value }

  /** The address a hexadecimal key derives to, if it is a key. */
  type KeyParser = string -> Option<Attest.Address>

  /** validateStakingKey. */
  function CheckStakingKey(keys: KeyParser, c: Data): Option<Error> {
    var hexKey := TrimPrefix(Attest.TrimSpace(c.stakingPrivateKey), "0x");
    if hexKey == "" then Some(KeyNotSet)
    else
      match keys(hexKey)
      case None => Some(KeyUnusable)
      case Some(derived) =>
        if Attest.ParseAddress(c.stakingAddress) != Some(derived) then Some(KeyMismatch(derived)) else None
  }

  function CheckPrice(input: Data, generated: string): Checked {
    var c := input.(robotID := OrDefault(input.robotID, generated), price := OrDefault(input.price, DEFAULT_PRICE));
    if IsPrice(c.price) then Accept(c) else Reject(c, InvalidPrice(c.price))
  }

  function CheckNetwork(input: Data): Checked {
    var c := input.(network := OrDefault(input.network, DEFAULT_NETWORK));
    if IsNetwork(c.network) then Accept(c) else Reject(c, InvalidNetwork(c.network))
  }

  function CheckNames(input: Data, generated: string): Checked {
    var price := CheckPrice(input, generated);
    if price.error.Some? then price else CheckNetwork(price.data)
  }

  function AddressError(keys: KeyParser, c: Data): Option<Error> {
    if c.evmPayeeAddress == "" then Some(PayeeMissing)
    else if !IsAddress(c.evmPayeeAddress) then Some(InvalidPayee(c.evmPayeeAddress))
    else if c.stakingAddress == "" then Some(StakingMissing)
    else if !IsAddress(c.stakingAddress) then Some(InvalidStaking(c.stakingAddress))
    else CheckStakingKey(keys, c)
  }

  function CheckBasics(keys: KeyParser, input: Data, generated: string): Checked {
    var names := CheckNames(input, generated);
    if names.error.Some? then names else Checked(names.data, AddressError(keys, names.data))
  }

  /** Config.NeedsEIP712Domain. */
  predicate NeedsEIP712Domain(c: Data) { c.tokenTransferMethod != PERMIT2 || c.tokenSupportsEIP2612 }

  predicate DecimalsInRange(n: int) { 0 <= n <= MAX_DECIMALS }

  function TokenError(c: Data): Option<Error> {
    if !IsAddress(c.tokenAddress) then Some(InvalidToken(c.tokenAddress))
    else if ChainID(c.network).None? then Some(TokenNeedsEip155(c.network))
    else if !DecimalsInRange(c.tokenDecimals) then Some(InvalidTokenDecimals(c.tokenDecimals))
    else None
  }

  function CheckTransfer(input: Data): Checked {
    var c := input.(tokenTransferMethod := OrDefault(input.tokenTransferMethod, EIP3009));
    if c.tokenTransferMethod !in {EIP3009, PERMIT2} then Reject(c, InvalidTransferMethod(c.tokenTransferMethod))
    else if c.tokenSupportsEIP2612 && c.tokenTransferMethod != PERMIT2 then Reject(c, Eip2612NeedsPermit2)
    else if NeedsEIP712Domain(c) && c.tokenName == "" then Reject(c, TokenNameRequired(c.tokenTransferMethod))
    else Accept(c.(tokenVersion := OrDefault(c.tokenVersion, DEFAULT_TOKEN_VERSION),
                   tokenDecimals := OrDefaultInt(c.tokenDecimals, DEFAULT_DECIMALS)))
  }

  function CheckToken(input: Data): Checked {
    if input.tokenAddress == "" then Accept(input)
    else if TokenError(input).Some? then Checked(input, TokenError(input))
    else CheckTransfer(input)
  }

  predicate IsKnownTempoChain(id: int64) { id == TEMPO_MAINNET || id == TEMPO_MODERATO }

  function CheckMPPNetwork(input: Data): Checked {
    var c := input.(mppNetwork := OrDefault(input.mppNetwork, DEFAULT_MPP_NETWORK));
    if !IsNetwork(c.mppNetwork) then Reject(c, InvalidMPPNetwork(c.mppNetwork))
    else if MPPChainID(c.mppNetwork).None? then Reject(c, MPPNeedsEip155(c.mppNetwork))
    else if c.mppRPCURL == "" && !IsKnownTempoChain(MPPChainID(c.mppNetwork).value)
        then Reject(c, RPCURLRequired(c.mppNetwork))
    else Accept(c)
  }

  function CheckMPPAccounts(input: Data): Checked {
    var c := input.(mppPayeeAddress := OrDefault(input.mppPayeeAddress, input.evmPayeeAddress));
    if !IsAddress(c.mppPayeeAddress) then Reject(c, InvalidMPPPayee(c.mppPayeeAddress))
    else if c.mppCurrency != "" && !IsAddress(c.mppCurrency) then Reject(c, InvalidMPPCurrency(c.mppCurrency))
    else Accept(c)
  }

  function CheckMPPTerms(input: Data): Checked {
    var c := input.(mppDecimals := OrDefaultInt(input.mppDecimals, DEFAULT_DECIMALS));
    if !DecimalsInRange(c.mppDecimals) then Reject(c, InvalidMPPDecimals(c.mppDecimals))
    else
      var c := c.(mppRealm := OrDefault(c.mppRealm, c.robotID));
      if |c.mppSecretKey| < MIN_SECRET_KEY_BYTES then Reject(c, SecretKeyTooShort) else Accept(c)
  }

  function CheckMPP(input: Data): Checked {
    if !input.mppEnabled then Accept(input)
    else
      var network := CheckMPPNetwork(input);
      if network.error.Some? then network
      else
        var accounts := CheckMPPAccounts(network.data);
        if accounts.error.Some? then accounts else CheckMPPTerms(accounts.data)
  }

  /** Config.Validate; `generated` is the robot ID made up for a configuration without one. */
  function CheckAll(keys: KeyParser, input: Data, generated: string): Checked {
    var basics := CheckBasics(keys, input, generated);
    if basics.error.Some? then basics
    else
      var token := CheckToken(basics.data);
      if token.error.Some? then token else CheckMPP(token.data)
  }

  // ---- what a reader would expect of it ----

  function BasicDefaults(c: Data, generated: string): Data {
    c.(robotID := if c.robotID == "" then generated else c.robotID,
       price := if c.price == "" then "0.001" else c.price,
       network := if c.network == "" then "eip155:8453" else c.network)
  }

  function TokenDefaults(c: Data): Data {
    if c.tokenAddress == "" then c else c.(
      tokenTransferMethod := if c.tokenTransferMethod == "" then "eip3009" else c.tokenTransferMethod,
      tokenVersion := if c.tokenVersion == "" then "1" else c.tokenVersion,
      tokenDecimals := if c.tokenDecimals == 0 then 6 else c.tokenDecimals)
  }

  function MPPDefaults(c: Data): Data {
    if !c.mppEnabled then c else c.(
      mppNetwork := if c.mppNetwork == "" then "eip155:4217" else c.mppNetwork,
      mppPayeeAddress := if c.mppPayeeAddress == "" then c.evmPayeeAddress else c.mppPayeeAddress,
      mppDecimals := if c.mppDecimals == 0 then 6 else c.mppDecimals,
      mppRealm := if c.mppRealm == "" then c.robotID else c.mppRealm)
  }

  /** All defaults at once. */
  function WithDefaults(input: Data, generated: string): Data {
    MPPDefaults(TokenDefaults(BasicDefaults(input, generated)))
  }

  /** The private key, blanks and prefix aside. */
  function HexKey(c: Data): string {
    var key := Attest.TrimSpace(c.stakingPrivateKey);
    if "0x" <= key then key[2..] else key
  }

  /** The key is one, and derives to the declared staking address. */
  predicate KeyControlsStake(keys: KeyParser, c: Data) {
    HexKey(c) != "" && keys(HexKey(c)).Some? && keys(HexKey(c)) == Attest.ParseAddress(c.stakingAddress)
  }

  predicate SoundBasics(keys: KeyParser, c: Data) {
    && IsPrice(c.price)
    && IsNetwork(c.network)
    && IsAddress(c.evmPayeeAddress)
    && IsAddress(c.stakingAddress)
    && KeyControlsStake(keys, c)
  }

  /** The payer signs against the token's own domain unless the transfer goes through a bare permit2. */
  predicate NeedsName(c: Data) { !(c.tokenTransferMethod == "permit2" && !c.tokenSupportsEIP2612) }

  predicate SoundToken(c: Data) {
    c.tokenAddress != "" ==>
      && IsAddress(c.tokenAddress)
      && ChainID(c.network).Some?
      && 1 <= c.tokenDecimals <= 36
      && c.tokenTransferMethod in {"eip3009", "permit2"}
      && (c.tokenSupportsEIP2612 ==> c.tokenTransferMethod == "permit2")
      && (NeedsName(c) ==> c.tokenName != "")
      && c.tokenVersion != ""
  }

  /** Tempo's two chains have an endpoint of their own. */
  predicate HasEndpoint(c: Data) { c.mppRPCURL != "" || ChainID(c.mppNetwork) in {Some(4217), Some(42431)} }

  predicate SoundMPP(c: Data) {
    c.mppEnabled ==>
      && IsNetwork(c.mppNetwork)
      && MPPChainID(c.mppNetwork).Some?
      && HasEndpoint(c)
      && IsAddress(c.mppPayeeAddress)
      && (c.mppCurrency == "" || IsAddress(c.mppCurrency))
      && 1 <= c.mppDecimals <= 36
      && |c.mppSecretKey| >= 32
  }

  /** What a validated configuration satisfies, in no particular order. */
  predicate Sound(keys: KeyParser, c: Data) { SoundBasics(keys, c) && SoundToken(c) && SoundMPP(c) }

  lemma StakingKeyExactly(keys: KeyParser, c: Data)
    ensures var derived := keys(HexKey(c));
      CheckStakingKey(keys, c) ==
        if HexKey(c) == "" then Some(KeyNotSet)
        else if derived.None? then Some(KeyUnusable)
        else if derived == Attest.ParseAddress(c.stakingAddress) then None
        else Some(KeyMismatch(derived.value))
  {
    assert HexKey(c) == TrimPrefix(Attest.TrimSpace(c.stakingPrivateKey), "0x");
  }

  // ---- which error comes back, and what has been filled in by then ----

  /** The first complaint about a configuration whose defaults are filled in, stage by stage. */
  function NamesComplaint(c: Data): Option<Error> {
    if !IsPrice(c.price) then Some(InvalidPrice(c.price))
    else if !IsNetwork(c.network) then Some(InvalidNetwork(c.network))
    else None
  }

  function AddressComplaint(keys: KeyParser, c: Data): Option<Error> {
    if c.evmPayeeAddress == "" then Some(PayeeMissing)
    else if !IsAddress(c.evmPayeeAddress) then Some(InvalidPayee(c.evmPayeeAddress))
    else if c.stakingAddress == "" then Some(StakingMissing)
    else if !IsAddress(c.stakingAddress) then Some(InvalidStaking(c.stakingAddress))
    else if HexKey(c) == "" then Some(KeyNotSet)
    else if keys(HexKey(c)).None? then Some(KeyUnusable)
    else if keys(HexKey(c)) != Attest.ParseAddress(c.stakingAddress) then Some(KeyMismatch(keys(HexKey(c)).value))
    else None
  }

  function TokenComplaint(c: Data): Option<Error> {
    if c.tokenAddress == "" then None
    else if !IsAddress(c.tokenAddress) then Some(InvalidToken(c.tokenAddress))
    else if ChainID(c.network).None? then Some(TokenNeedsEip155(c.network))
    else if !(1 <= c.tokenDecimals <= 36) then Some(InvalidTokenDecimals(c.tokenDecimals))
    else if c.tokenTransferMethod !in {"eip3009", "permit2"} then Some(InvalidTransferMethod(c.tokenTransferMethod))
    else if c.tokenSupportsEIP2612 && c.tokenTransferMethod != "permit2" then Some(Eip2612NeedsPermit2)
    else if NeedsName(c) && c.tokenName == "" then Some(TokenNameRequired(c.tokenTransferMethod))
    else None
  }

  function MPPNetworkComplaint(c: Data): Option<Error> {
    if !IsNetwork(c.mppNetwork) then Some(InvalidMPPNetwork(c.mppNetwork))
    else if MPPChainID(c.mppNetwork).None? then Some(MPPNeedsEip155(c.mppNetwork))
    else if !HasEndpoint(c) then Some(RPCURLRequired(c.mppNetwork))
    else None
  }

  function MPPAccountsComplaint(c: Data): Option<Error> {
    if !IsAddress(c.mppPayeeAddress) then Some(InvalidMPPPayee(c.mppPayeeAddress))
    else if c.mppCurrency != "" && !IsAddress(c.mppCurrency) then Some(InvalidMPPCurrency(c.mppCurrency))
    else None
  }

  function MPPTermsComplaint(c: Data): Option<Error> {
    if !(1 <= c.mppDecimals <= 36) then Some(InvalidMPPDecimals(c.mppDecimals))
    else if |c.mppSecretKey| < 32 then Some(SecretKeyTooShort)
    else None
  }

  function OrElse(e: Option<Error>, f: Option<Error>): Option<Error> { if e.Some? then e else f }

  function BasicComplaint(keys: KeyParser, c: Data): Option<Error> {
    OrElse(NamesComplaint(c), AddressComplaint(keys, c))
  }

  function MPPComplaint(c: Data): Option<Error> {
    if !c.mppEnabled then None
    else OrElse(MPPNetworkComplaint(c), OrElse(MPPAccountsComplaint(c), MPPTermsComplaint(c)))
  }

  function Complaint(keys: KeyParser, c: Data): Option<Error> {
    OrElse(BasicComplaint(keys, c), OrElse(TokenComplaint(c), MPPComplaint(c)))
  }

  lemma NamesComplain(c: Data, generated: string)
    ensures var d := BasicDefaults(c, generated);
      CheckNames(c, generated) == Checked(if IsPrice(d.price) then d else d.(network := c.network), NamesComplaint(d))
  {
  }

  lemma AddressesComplain(keys: KeyParser, c: Data)
    ensures AddressError(keys, c) == AddressComplaint(keys, c)
  {
    StakingKeyExactly(keys, c);
  }

  lemma BasicsComplain(keys: KeyParser, c: Data, generated: string)
    ensures var d := BasicDefaults(c, generated);
      CheckBasics(keys, c, generated) ==
        Checked(if IsPrice(d.price) then d else d.(network := c.network), BasicComplaint(keys, d))
  {
    NamesComplain(c, generated);
    AddressesComplain(keys, BasicDefaults(c, generated));
  }

  lemma TokenComplains(c: Data)
    ensures CheckToken(c).error == TokenComplaint(TokenDefaults(c))
    ensures CheckToken(c).data ==
      var (d, e) := (TokenDefaults(c), TokenComplaint(TokenDefaults(c)));
      if e.None? then d
      else if e.value.InvalidToken? || e.value.TokenNeedsEip155? || e.value.InvalidTokenDecimals? then c
      else d.(tokenVersion := c.tokenVersion, tokenDecimals := c.tokenDecimals)
  {
  }

  lemma MPPNetworkComplains(c: Data)
    requires c.mppEnabled
    ensures CheckMPPNetwork(c) ==
      Checked(c.(mppNetwork := MPPDefaults(c).mppNetwork), MPPNetworkComplaint(MPPDefaults(c)))
  {
  }

  lemma MPPAccountsComplain(c: Data)
    requires c.mppEnabled
    ensures CheckMPPAccounts(c) ==
      Checked(c.(mppPayeeAddress := MPPDefaults(c).mppPayeeAddress), MPPAccountsComplaint(MPPDefaults(c)))
  {
  }

  lemma MPPTermsComplain(c: Data)
    requires c.mppEnabled
    ensures var d := MPPDefaults(c);
      CheckMPPTerms(c) == Checked(
        if 1 <= d.mppDecimals <= 36 then c.(mppDecimals := d.mppDecimals, mppRealm := d.mppRealm)
        else c.(mppDecimals := d.mppDecimals), MPPTermsComplaint(d))
  {
  }

  lemma MPPComplains(c: Data)
    ensures CheckMPP(c).error == MPPComplaint(MPPDefaults(c))
    ensures CheckMPP(c).data ==
      var d := MPPDefaults(c);
      if !c.mppEnabled then c
      else if MPPNetworkComplaint(d).Some? then c.(mppNetwork := d.mppNetwork)
      else if MPPAccountsComplaint(d).Some? then c.(mppNetwork := d.mppNetwork, mppPayeeAddress := d.mppPayeeAddress)
      else if 1 <= d.mppDecimals <= 36 then d
      else d.(mppRealm := c.mppRealm)
  {
    if c.mppEnabled {
      var d := MPPDefaults(c);
      var network := c.(mppNetwork := d.mppNetwork);
      var accounts := network.(mppPayeeAddress := d.mppPayeeAddress);
      MPPNetworkComplains(c);
      MPPAccountsComplain(network);
      MPPTermsComplain(accounts);
      assert MPPDefaults(network) == d && MPPDefaults(accounts) == d;
    }
  }

  lemma LaterComplaints(keys: KeyParser, c: Data)
    ensures BasicComplaint(keys, MPPDefaults(TokenDefaults(c))) == BasicComplaint(keys, c)
    ensures TokenComplaint(MPPDefaults(TokenDefaults(c))) == TokenComplaint(TokenDefaults(c))
  {
    var d := MPPDefaults(TokenDefaults(c));
    assert HexKey(d) == HexKey(c);
  }

  /** The error is the first complaint about the configuration with all its defaults, wherever they are filled in. */
  lemma RejectsFirstComplaint(keys: KeyParser, input: Data, generated: string)
    ensures CheckAll(keys, input, generated).error == Complaint(keys, WithDefaults(input, generated))
    ensures CheckAll(keys, input, generated).error.None? ==>
      CheckAll(keys, input, generated).data == WithDefaults(input, generated)
  {
    var basics := BasicDefaults(input, generated);
    BasicsComplain(keys, input, generated);
    LaterComplaints(keys, basics);
    if BasicComplaint(keys, basics).None? {
      TokenComplains(basics);
      if TokenComplaint(TokenDefaults(basics)).None? {
        MPPComplains(TokenDefaults(basics));
      }
    }
  }

  lemma SoundBasicsExactly(keys: KeyParser, c: Data)
    ensures SoundBasics(keys, c) <==> BasicComplaint(keys, c).None?
  {
  }

  lemma SoundTokenExactly(c: Data)
    requires c.tokenVersion != "" || c.tokenAddress == ""
    ensures SoundToken(c) <==> TokenComplaint(c).None?
  {
  }

  lemma SoundMPPExactly(c: Data)
    ensures SoundMPP(c) <==> MPPComplaint(c).None?
  {
  }

  /** Validate accepts exactly what is sound once defaulted, and leaves exactly the defaults behind. */
  lemma AcceptsExactlySound(keys: KeyParser, input: Data, generated: string)
    ensures CheckAll(keys, input, generated).error.None? <==> Sound(keys, WithDefaults(input, generated))
    ensures CheckAll(keys, input, generated).error.None? ==>
      CheckAll(keys, input, generated).data == WithDefaults(input, generated)
  {
    var c := WithDefaults(input, generated);
    RejectsFirstComplaint(keys, input, generated);
    SoundBasicsExactly(keys, c);
    SoundTokenExactly(c);
    SoundMPPExactly(c);
  }

  // ---- validating twice ----

  lemma NamesAgain(c: Data, generated: string, again: string)
    requires generated != ""
    ensures CheckNames(CheckNames(c, generated).data, again) == CheckNames(c, generated)
  {
  }

  lemma BasicsAgain(keys: KeyParser, c: Data, generated: string, again: string)
    requires generated != ""
    ensures CheckBasics(keys, CheckBasics(keys, c, generated).data, again) == CheckBasics(keys, c, generated)
  {
    NamesAgain(c, generated, again);
  }

  /** The fields of the first stage are those of the other configuration. */
  predicate SameBasics(c: Data, d: Data) {
    && c.robotID == d.robotID && c.price == d.price && c.network == d.network
    && c.evmPayeeAddress == d.evmPayeeAddress && c.stakingAddress == d.stakingAddress
        && c.stakingPrivateKey == d.stakingPrivateKey
  }

  /** A later stage leaves the basics alone, so that they are accepted again. */
  lemma BasicsUntouched(keys: KeyParser, c: Data, d: Data, generated: string, again: string)
    requires generated != "" && CheckBasics(keys, c, generated).error.None?
    requires SameBasics(d, CheckBasics(keys, c, generated).data)
    ensures CheckBasics(keys, d, again) == Accept(d)
  {
  }

  lemma TransferAgain(c: Data)
    ensures var d := CheckTransfer(c).data;
      && CheckTransfer(d) == CheckTransfer(c)
      && d == c.(tokenTransferMethod := d.tokenTransferMethod, tokenVersion := d.tokenVersion,
          tokenDecimals := d.tokenDecimals)
      && (DecimalsInRange(c.tokenDecimals) ==> DecimalsInRange(d.tokenDecimals))
  {
  }

  lemma TokenAgain(c: Data)
    ensures CheckToken(CheckToken(c).data) == CheckToken(c)
    ensures SameBasics(CheckToken(c).data, c)
  {
    TransferAgain(c);
  }

  predicate SameToken(c: Data, d: Data) {
    && c.network == d.network && c.tokenAddress == d.tokenAddress && c.tokenName == d.tokenName
        && c.tokenVersion == d.tokenVersion
    && c.tokenDecimals == d.tokenDecimals && c.tokenTransferMethod == d.tokenTransferMethod
    && c.tokenSupportsEIP2612 == d.tokenSupportsEIP2612
  }

  lemma TokenUntouched(c: Data, d: Data)
    requires CheckToken(c).error.None? && SameToken(d, CheckToken(c).data)
    ensures CheckToken(d) == Accept(d)
  {
  }

  lemma MPPNetworkAgain(c: Data)
    ensures CheckMPPNetwork(CheckMPPNetwork(c).data) == CheckMPPNetwork(c)
    ensures CheckMPPNetwork(c).data == c.(mppNetwork := CheckMPPNetwork(c).data.mppNetwork)
  {
  }

  lemma MPPAccountsAgain(c: Data)
    requires CheckMPPNetwork(c) == Accept(c)
    ensures CheckMPPAccounts(CheckMPPAccounts(c).data) == CheckMPPAccounts(c)
    ensures CheckMPPAccounts(c).data == c.(mppPayeeAddress := CheckMPPAccounts(c).data.mppPayeeAddress)
    ensures CheckMPPNetwork(CheckMPPAccounts(c).data) == Accept(CheckMPPAccounts(c).data)
  {
  }

  lemma MPPTermsAgain(c: Data)
    requires c.robotID != "" && CheckMPPNetwork(c) == Accept(c) && CheckMPPAccounts(c) == Accept(c)
    ensures var d := CheckMPPTerms(c).data;
      && CheckMPPTerms(d) == CheckMPPTerms(c)
      && d == c.(mppDecimals := d.mppDecimals, mppRealm := d.mppRealm)
      && CheckMPPNetwork(d) == Accept(d) && CheckMPPAccounts(d) == Accept(d)
  {
  }

  lemma MPPAgain(c: Data)
    requires c.robotID != ""
    ensures CheckMPP(CheckMPP(c).data) == CheckMPP(c)
    ensures SameBasics(CheckMPP(c).data, c) && SameToken(CheckMPP(c).data, c)
  {
    if c.mppEnabled {
      var network := CheckMPPNetwork(c);
      MPPNetworkAgain(c);
      if network.error.None? {
        var accounts := CheckMPPAccounts(network.data);
        MPPAccountsAgain(network.data);
        if accounts.error.None? {
          MPPTermsAgain(accounts.data);
        }
      }
    }
  }

  /** Validating what Validate left behind changes nothing and ends the same way, on every path. */
  lemma ValidateAgain(keys: KeyParser, input: Data, generated: string, again: string)
    requires generated != ""
    ensures CheckAll(keys, CheckAll(keys, input, generated).data, again) == CheckAll(keys, input, generated)
  {
    var basics := CheckBasics(keys, input, generated);
    BasicsAgain(keys, input, generated, again);
    if basics.error.None? {
      var token := CheckToken(basics.data);
      TokenAgain(basics.data);
      if token.error.Some? {
        BasicsUntouched(keys, input, token.data, generated, again);
      } else {
        var mpp := CheckMPP(token.data);
        MPPAgain(token.data);
        BasicsUntouched(keys, input, mpp.data, generated, again);
        TokenUntouched(basics.data, mpp.data);
      }
    }
  }

  /** What later code relies on: the failure branches it still has cannot be taken. */
  lemma AcceptedIsUsable(keys: KeyParser, input: Data, generated: string)
    requires CheckAll(keys, input, generated).error.None?
    ensures var c := CheckAll(keys, input, generated).data;
      && (c.mppEnabled ==>
            MPPChainID(c.mppNetwork).Some? && 1 <= c.mppDecimals <= 36 && IsAddress(c.mppPayeeAddress))
      && (c.tokenAddress != "" ==> ChainID(c.network).Some? && 1 <= c.tokenDecimals <= 36)
      && (c.tokenAddress != "" && NeedsEIP712Domain(c) ==> c.tokenName != "" && c.tokenVersion != "")
      && KeyControlsStake(keys, c)
  {
    AcceptsExactlySound(keys, input, generated);
  }

  // ---- the configuration as an object ----

  class Configuration {
    var robotID: string
    var evmPayeeAddress: string
    var stakingAddress: string
    var stakingPrivateKey: string
    var price: string
    var network: string
    var tokenAddress: string
    var tokenName: string
    var tokenVersion: string
    var tokenDecimals: int
    var tokenTransferMethod: string
    var tokenSupportsEIP2612: bool
    var mppEnabled: bool
    var mppNetwork: string
    var mppPayeeAddress: string
    var mppCurrency: string
    var mppDecimals: int
    var mppRealm: string
    var mppRPCURL: string
    var mppSecretKey: string

    function State(): Data
      reads this
    {
      Data(robotID, evmPayeeAddress, stakingAddress, stakingPrivateKey, price, network,
           tokenAddress, tokenName, tokenVersion, tokenDecimals, tokenTransferMethod, tokenSupportsEIP2612,
           mppEnabled, mppNetwork, mppPayeeAddress, mppCurrency, mppDecimals, mppRealm, mppRPCURL, mppSecretKey)
    }

    constructor (c: Data)
      ensures State() == c
    {
      robotID, evmPayeeAddress, stakingAddress := c.robotID, c.evmPayeeAddress, c.stakingAddress;
      stakingPrivateKey, price, network := c.stakingPrivateKey, c.price, c.network;
      tokenAddress, tokenName, tokenVersion := c.tokenAddress, c.tokenName, c.tokenVersion;
      tokenDecimals, tokenTransferMethod, tokenSupportsEIP2612 := c.tokenDecimals, c.tokenTransferMethod,
          c.tokenSupportsEIP2612;
      mppEnabled, mppNetwork, mppPayeeAddress := c.mppEnabled, c.mppNetwork, c.mppPayeeAddress;
      mppCurrency, mppDecimals, mppRealm := c.mppCurrency, c.mppDecimals, c.mppRealm;
      mppRPCURL, mppSecretKey := c.mppRPCURL, c.mppSecretKey;
    }

    method Validate(keys: KeyParser, generated: string) returns (err: Option<Error>)
      modifies this
      ensures Checked(State(), err) == CheckAll(keys, old(State()), generated)
    {
      err := ValidateBasics(keys, generated);
      if err.Some? {
        return;
      }
      err := ValidateToken();
      if err.Some? {
        return;
      }
      err := ValidateMPP();
    }

    method ValidateBasics(keys: KeyParser, generated: string) returns (err: Option<Error>)
      modifies this
      ensures Checked(State(), err) == CheckBasics(keys, old(State()), generated)
    {
      err := ValidateNames(generated);
      if err.None? {
        err := ValidateAddresses(keys);
      }
    }

    method ValidateNames(generated: string) returns (err: Option<Error>)
      modifies this
      ensures Checked(State(), err) == CheckNames(old(State()), generated)
    {
      err := ValidatePrice(generated);
      if err.None? {
        err := ValidateNetwork();
      }
    }

    method ValidatePrice(generated: string) returns (err: Option<Error>)
      modifies this
      ensures Checked(State(), err) == CheckPrice(old(State()), generated)
    {
      if robotID == "" {
        robotID := generated;
      }
      if price == "" {
        price := DEFAULT_PRICE;
      }
      if !IsPrice(price) {
        return Some(InvalidPrice(price));
      }
      return None;
    }

    method ValidateNetwork() returns (err: Option<Error>)
      modifies this
      ensures Checked(State(), err) == CheckNetwork(old(State()))
    {
      if network == "" {
        network := DEFAULT_NETWORK;
      }
      if !IsNetwork(network) {
        return Some(InvalidNetwork(network));
      }
      return None;
    }

    method ValidateAddresses(keys: KeyParser) returns (err: Option<Error>)
      ensures err == AddressError(keys, State())
    {
      if evmPayeeAddress == "" {
        return Some(PayeeMissing);
      }
      if !IsAddress(evmPayeeAddress) {
        return Some(InvalidPayee(evmPayeeAddress));
      }
      if stakingAddress == "" {
        return Some(StakingMissing);
      }
      if !IsAddress(stakingAddress) {
        return Some(InvalidStaking(stakingAddress));
      }
      return CheckStakingKey(keys, State());
    }

    method ValidateToken() returns (err: Option<Error>)
      modifies this
      ensures Checked(State(), err) == CheckToken(old(State()))
    {
      if tokenAddress == "" {
        return None;
      }
      err := ValidateTokenAddress();
      if err.None? {
        err := ValidateTransfer();
      }
    }

    method ValidateTokenAddress() returns (err: Option<Error>)
      ensures err == TokenError(State())
    {
      if !IsAddress(tokenAddress) {
        return Some(InvalidToken(tokenAddress));
      }
      if ChainID(network).None? {
        return Some(TokenNeedsEip155(network));
      }
      if tokenDecimals < 0 || tokenDecimals > MAX_DECIMALS {
        return Some(InvalidTokenDecimals(tokenDecimals));
      }
      return None;
    }

    method ValidateTransfer() returns (err: Option<Error>)
      modifies this
      ensures Checked(State(), err) == CheckTransfer(old(State()))
    {
      if tokenTransferMethod == "" {
        tokenTransferMethod := EIP3009;
      } else if tokenTransferMethod != EIP3009 && tokenTransferMethod != PERMIT2 {
        return Some(InvalidTransferMethod(tokenTransferMethod));
      }
      if tokenSupportsEIP2612 && tokenTransferMethod != PERMIT2 {
        return Some(Eip2612NeedsPermit2);
      }
      if NeedsEIP712Domain(State()) && tokenName == "" {
        return Some(TokenNameRequired(tokenTransferMethod));
      }
      if tokenVersion == "" {
        tokenVersion := DEFAULT_TOKEN_VERSION;
      }
      if tokenDecimals == 0 {
        tokenDecimals := DEFAULT_DECIMALS;
      }
      return None;
    }

    method ValidateMPP() returns (err: Option<Error>)
      modifies this
      ensures Checked(State(), err) == CheckMPP(old(State()))
    {
      if !mppEnabled {
        return None;
      }
      err := ValidateMPPNetwork();
      if err.Some? {
        return;
      }
      err := ValidateMPPAccounts();
      if err.Some? {
        return;
      }
      err := ValidateMPPTerms();
    }

    method ValidateMPPNetwork() returns (err: Option<Error>)
      modifies this
      ensures Checked(State(), err) == CheckMPPNetwork(old(State()))
    {
      if mppNetwork == "" {
        mppNetwork := DEFAULT_MPP_NETWORK;
      }
      if !IsNetwork(mppNetwork) {
        return Some(InvalidMPPNetwork(mppNetwork));
      }
      var chainID := MPPChainIDOf(mppNetwork);
      if chainID.None? {
        return Some(MPPNeedsEip155(mppNetwork));
      }
      if mppRPCURL == "" && !IsKnownTempoChain(chainID.value) {
        return Some(RPCURLRequired(mppNetwork));
      }
      return None;
    }

    method ValidateMPPAccounts() returns (err: Option<Error>)
      modifies this
      ensures Checked(State(), err) == CheckMPPAccounts(old(State()))
    {
      if mppPayeeAddress == "" {
        mppPayeeAddress := evmPayeeAddress;
      }
      if !IsAddress(mppPayeeAddress) {
        return Some(InvalidMPPPayee(mppPayeeAddress));
      }
      if mppCurrency != "" && !IsAddress(mppCurrency) {
        return Some(InvalidMPPCurrency(mppCurrency));
      }
      return None;
    }

    method ValidateMPPTerms() returns (err: Option<Error>)
      modifies this
      ensures Checked(State(), err) == CheckMPPTerms(old(State()))
    {
      if mppDecimals == 0 {
        mppDecimals := DEFAULT_DECIMALS;
      }
      if mppDecimals < 0 || mppDecimals > MAX_DECIMALS {
        return Some(InvalidMPPDecimals(mppDecimals));
      }
      if mppRealm == "" {
        mppRealm := robotID;
      }
      if |mppSecretKey| < MIN_SECRET_KEY_BYTES {
        return Some(SecretKeyTooShort);
      }
      return None;
    }
  }
}
