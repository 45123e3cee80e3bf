/** The parts of the node configuration that the daemon's admission and
    accounting logic reads and writes, the outside services it calls, and
    the record of the calls that reach the network or the disk. */
module DaemonConfig {
  import opened Wrappers

  const NanosPerSecond: int := 1_000_000_000

  /** Verification fields: the node's transaction, its private key material
      and the license the trust authority issued for it. `period` is the
      license expiry as a Unix time in seconds. The source stores `voutid`
      and `licversion` as 32-bit integers; here they are unbounded, and the
      one value that enters from outside that range, the voutid option, is
      wrapped to 32 bits when it is stored. */
  datatype VerifyInfo = VerifyInfo(txid: string, voutid: int, secret: string,
                                   license: string, period: int, licversion: int)

  /** One cached public key of the trust authority, per license version. */
  datatype VersionPubkey = VersionPubkey(licversion: int, pubkey: string)

  /** Where the trust authority is and the keys it is known to sign with. */
  datatype UCenterInfo = UCenterInfo(serverAddress: string, serverPubkeys: seq<VersionPubkey>)

  /** Usage reporting: collector address (empty: no reporting), the account
      credited, and the bounds of the random reporting interval in
      nanoseconds. */
  datatype ReportInfo = ReportInfo(address: string, account: string,
                                   durationMin: int, durationMax: int, requestTimeout: int)

  datatype Config = Config(verify: VerifyInfo, ucenter: UCenterInfo, report: ReportInfo,
                           routingType: string, peerId: string)

  /** What a license request returns. */
  datatype LicenseBundle = LicenseBundle(license: string, licPeriod: int, licversion: int)

  /** The trust authority's services and the signature primitives, all
      outside this model: requests are functions of (server address, txid,
      voutid); `nodeInfoHash` takes (txid, voutid, public key, period,
      license version) in that order. */
  datatype Authority = Authority(
    requestLicense: (string, string, int) -> Result<LicenseBundle, string>,
    requestKeyMap: (string, string, int) -> Result<map<int, string>, string>,
    publicKeyOf: string -> Result<string, string>,
    nodeInfoHash: (string, int, string, int, int) -> string,
    verifySignature: (string, string, string) -> Result<bool, string>)

  /** The daemon's surroundings: the clock (Unix time in nanoseconds), the
      outcome of writing a configuration to disk (an error or none), the
      outcome of reading the repository's configuration again (an error or
      none), the two configuration checks of the verification library, and
      the authority. */
  datatype Env = Env(
    now: int,
    persistError: Config -> Option<string>,
    readConfigError: Option<string>,
    checkVerifyInfo: VerifyInfo -> Option<string>,
    checkUCenterInfo: UCenterInfo -> Option<string>,
    authority: Authority)

  /** A call that leaves the process: a configuration write or a request to
      the trust authority. */
  datatype Effect =
    | Save(config: Config)
    | LicenseRequest(server: string, txid: string, voutid: int)
    | KeyMapRequest(server: string, txid: string, voutid: int)

  datatype DaemonError =
    | SaveFailed(cause: string)              // writing the configuration failed
    | CheckVerifyInfoFailed(cause: string)
    | CheckUCenterInfoFailed(cause: string)
    | MissingAccount                         // online without a reporting account
    | RequestLicenseFailed(cause: string)
    | PubkeyFailed(cause: string)            // the node key cannot be derived
    | KeyMapRequestFailed(cause: string)
    | KeyMapShrank                           // fewer keys fetched than already cached
    | VerifyError(cause: string)             // the signature check itself failed
    | VerifyFailed                           // the signature does not match
    | ConfigReadFailed(cause: string)        // re-reading the configuration for the routing type failed
    | SupernodeRemoved
    | UnrecognizedRouting(option: string)
    | MountOffline

  predicate IsRequest(e: Effect)
  {
    e.LicenseRequest? || e.KeyMapRequest?
  }
}
