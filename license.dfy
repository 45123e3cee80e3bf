/** The license check the daemon runs before it goes online: renew the
    license when it is unusable, find the authority key for the license
    version (fetching the authority's key map when the cache lacks it), and
    check the license as the authority's signature over the node identity
    hash. */
module License {
  import opened Wrappers
  import opened DaemonConfig
  import GoInt

  /** The license is renewed when its expiry has passed (the clock is
      strictly after it), when there is none, or when its version is 0. */
  predicate NeedsRenewal(v: VerifyInfo, now: int)
  {
    now > v.period * NanosPerSecond || v.license == "" || v.licversion == 0
  }

  /** The configuration with the license fields taken from a bundle. */
  function Renewed(c: Config, b: LicenseBundle): (r: Config)
    ensures r.ucenter == c.ucenter && r.report == c.report
    ensures r.verify.txid == c.verify.txid && r.verify.voutid == c.verify.voutid
    ensures r.verify.secret == c.verify.secret
    ensures (r.verify.license, r.verify.period, r.verify.licversion) == (b.license, b.licPeriod, b.licversion)
  {
    c.(verify := c.verify.(license := b.license, period := b.licPeriod, licversion := b.licversion))
  }

  /** The error a configuration write reports, if any. */
  function SaveOutcome(env: Env, c: Config): (r: Option<DaemonError>)
    ensures r.None? <==> env.persistError(c).None?
  {
    match env.persistError(c)
    case None => None
    case Some(cause) => Some(SaveFailed(cause))
  }

  /** A freshly issued license that is current, present and of a non-zero
      version needs no renewal: a second check right after a renewal makes
      no license request. */
  lemma RenewedIsCurrent(c: Config, b: LicenseBundle, now: int)
    requires now <= b.licPeriod * NanosPerSecond && b.license != "" && b.licversion != 0
    ensures !NeedsRenewal(Renewed(c, b).verify, now)
  {
  }

  /** The outcome of step 1 as a whole: the configuration, the calls made
      and the error. */
  function RenewOutcome(rcfg: Config, env: Env): (Config, seq<Effect>, Option<DaemonError>)
  {
    var v := rcfg.verify;
    if !NeedsRenewal(v, env.now) then (rcfg, [], None)
    else
      var request := LicenseRequest(rcfg.ucenter.serverAddress, v.txid, v.voutid);
      match env.authority.requestLicense(rcfg.ucenter.serverAddress, v.txid, v.voutid)
      case Failure(cause) => (rcfg, [request], Some(RequestLicenseFailed(cause)))
      case Success(b) => (Renewed(rcfg, b), [request, Save(Renewed(rcfg, b))], SaveOutcome(env, Renewed(rcfg, b)))
  }

  /** Step 1: request a new license when needed, take its fields, and write
      the configuration. */
  method RenewLicense(rcfg: Config, env: Env) returns (cfg: Config, trace: seq<Effect>, err: Option<DaemonError>)
    ensures (cfg, trace, err) == RenewOutcome(rcfg, env)
    ensures var v := rcfg.verify;
      !NeedsRenewal(v, env.now) ==> cfg == rcfg && trace == [] && err == None
    ensures var v := rcfg.verify;
      var reply := env.authority.requestLicense(rcfg.ucenter.serverAddress, v.txid, v.voutid);
      NeedsRenewal(v, env.now) ==>
        && |trace| >= 1
        && trace[0] == LicenseRequest(rcfg.ucenter.serverAddress, v.txid, v.voutid)
        && (reply.Failure? ==>
              cfg == rcfg && trace == [trace[0]] && err == Some(RequestLicenseFailed(reply.error)))
        && (reply.Success? ==>
              cfg == Renewed(rcfg, reply.value) && trace == [trace[0], Save(cfg)]
              && err == SaveOutcome(env, cfg))
  {
    cfg, trace, err := rcfg, [], None;
    var v := rcfg.verify;
    if NeedsRenewal(v, env.now) {
      trace := [LicenseRequest(rcfg.ucenter.serverAddress, v.txid, v.voutid)];
      var reply := env.authority.requestLicense(rcfg.ucenter.serverAddress, v.txid, v.voutid);
      if reply.Failure? {
        err := Some(RequestLicenseFailed(reply.error));
        return;
      }
      cfg := Renewed(cfg, reply.value);
      trace := trace + [Save(cfg)];
      err := SaveOutcome(env, cfg);
      assert trace == RenewOutcome(rcfg, env).1;
    }
  }

  /** The key of the first cached entry for version `ver`, or the empty
      string when no entry has that version. */
  function FirstKey(keys: seq<VersionPubkey>, ver: int): string
  {
    if keys == [] then ""
    else if keys[0].licversion == ver then keys[0].pubkey
    else FirstKey(keys[1..], ver)
  }

  /** What FirstKey finds: the first entry with the version, if any. */
  lemma {:induction false} FirstKeyFinds(keys: seq<VersionPubkey>, ver: int)
    ensures (forall j :: 0 <= j < |keys| ==> keys[j].licversion != ver) ==> FirstKey(keys, ver) == ""
    ensures forall j :: 0 <= j < |keys| && keys[j].licversion == ver
                        && (forall k :: 0 <= k < j ==> keys[k].licversion != ver)
                        ==> FirstKey(keys, ver) == keys[j].pubkey
  {
    if keys != [] {
      FirstKeyFinds(keys[1..], ver);
      assert forall j :: 1 <= j < |keys| ==> keys[j] == keys[1..][j - 1];
    }
  }

  /** `vps` lists the entries of the key map `m`, one per version. */
  ghost predicate ListsMap(vps: seq<VersionPubkey>, m: map<int, string>)
  {
    && |vps| == |m|
    && (forall j :: 0 <= j < |vps| ==> vps[j].licversion in m && m[vps[j].licversion] == vps[j].pubkey)
    && (forall v :: v in m ==> VersionPubkey(v, m[v]) in vps)
  }

  /** After the cache is replaced by a listing of the fetched map, looking
      a version up in the cache gives the map's key for it (or nothing). */
  lemma ListedKeysAreFound(vps: seq<VersionPubkey>, m: map<int, string>, ver: int)
    requires ListsMap(vps, m)
    ensures FirstKey(vps, ver) == if ver in m then m[ver] else ""
  {
    AgreeingFirstKey(vps, m, ver);
    if ver in m {
      assert VersionPubkey(ver, m[ver]) in vps;
    }
  }

  /** When every entry agrees with `m`, the lookup gives `m`'s key for a
      version some entry has, and nothing otherwise. */
  lemma {:induction false} AgreeingFirstKey(vps: seq<VersionPubkey>, m: map<int, string>, ver: int)
    requires forall j :: 0 <= j < |vps| ==> vps[j].licversion in m && m[vps[j].licversion] == vps[j].pubkey
    ensures FirstKey(vps, ver) == if exists j :: 0 <= j < |vps| && vps[j].licversion == ver then m[ver] else ""
  {
    if vps != [] && vps[0].licversion != ver {
      var tail := vps[1..];
      assert forall j :: 0 <= j < |tail| ==> tail[j] == vps[j + 1];
      AgreeingFirstKey(tail, m, ver);
      if exists j :: 0 <= j < |vps| && vps[j].licversion == ver {
        var j :| 0 <= j < |vps| && vps[j].licversion == ver;
        assert tail[j - 1].licversion == ver;
      }
    }
  }

  /** The key the license is checked against, given the verification fields
      after step 1 and the authority settings: the cached key for the
      version, or else the fetched map's key for it (empty when the map
      lacks it). */
  function ServerKey(v: VerifyInfo, u: UCenterInfo, a: Authority): string
  {
    var cached := FirstKey(u.serverPubkeys, v.licversion);
    if cached != "" then cached
    else
      match a.requestKeyMap(u.serverAddress, v.txid, v.voutid)
      case Failure(_) => ""
      case Success(m) => if v.licversion in m then m[v.licversion] else ""
  }

  /** The key map the authority returns for the node. */
  function KeyMapReply(c: Config, env: Env): Result<map<int, string>, string>
  {
    env.authority.requestKeyMap(c.ucenter.serverAddress, c.verify.txid, c.verify.voutid)
  }

  /** Step 3 fetches the key map: no cached key for the license version. */
  predicate MustFetch(c: Config)
  {
    FirstKey(c.ucenter.serverPubkeys, c.verify.licversion) == ""
  }

  /** Step 3 replaces the cache: it fetches, and the map is no smaller. */
  predicate Replaces(c: Config, env: Env)
  {
    MustFetch(c) && KeyMapReply(c, env).Success? && |KeyMapReply(c, env).value| >= |c.ucenter.serverPubkeys|
  }

  /** The configurations step 3 may end with: the cache replaced by a
      listing of the fetched map (in some order), or nothing changed. */
  ghost predicate KeyStepConfig(c: Config, env: Env, out: Config)
  {
    if Replaces(c, env) then
      out == c.(ucenter := c.ucenter.(serverPubkeys := out.ucenter.serverPubkeys))
      && ListsMap(out.ucenter.serverPubkeys, KeyMapReply(c, env).value)
    else out == c
  }

  /** The calls step 3 makes when it ends with `out`. */
  function KeyStepTrace(c: Config, env: Env, out: Config): seq<Effect>
  {
    if !MustFetch(c) then []
    else
      var request := KeyMapRequest(c.ucenter.serverAddress, c.verify.txid, c.verify.voutid);
      if Replaces(c, env) then [request, Save(out)] else [request]
  }

  /** The error step 3 reports when it ends with `out`. */
  function KeyStepError(c: Config, env: Env, out: Config): Option<DaemonError>
  {
    if !MustFetch(c) then None
    else
      match KeyMapReply(c, env)
      case Failure(cause) => Some(KeyMapRequestFailed(cause))
      case Success(m) => if |m| < |c.ucenter.serverPubkeys| then Some(KeyMapShrank) else SaveOutcome(env, out)
  }

  /** Step 3: look the authority key up in the cache; when it is not there,
      fetch the authority's key map, refuse a map smaller than the cache,
      replace the cache by the map's entries (in the map's iteration order)
      and write the configuration. */
  method ResolveServerKey(cfg: Config, env: Env)
    returns (out: Config, key: string, trace: seq<Effect>, err: Option<DaemonError>)
    ensures KeyStepConfig(cfg, env, out)
    ensures trace == KeyStepTrace(cfg, env, out) && err == KeyStepError(cfg, env, out)
    ensures out.verify == cfg.verify && out.report == cfg.report
    ensures out.routingType == cfg.routingType && out.peerId == cfg.peerId
    ensures out.ucenter.serverAddress == cfg.ucenter.serverAddress
    ensures |out.ucenter.serverPubkeys| >= |cfg.ucenter.serverPubkeys|
    ensures err.None? ==> key == ServerKey(cfg.verify, cfg.ucenter, env.authority)
    ensures var cached := FirstKey(cfg.ucenter.serverPubkeys, cfg.verify.licversion);
      cached != "" ==> key == cached && out == cfg && trace == [] && err == None
    ensures var v := cfg.verify;
      var u := cfg.ucenter;
      var reply := env.authority.requestKeyMap(u.serverAddress, v.txid, v.voutid);
      FirstKey(u.serverPubkeys, v.licversion) == "" ==>
        && |trace| >= 1
        && trace[0] == KeyMapRequest(u.serverAddress, v.txid, v.voutid)
        && (reply.Failure? ==>
              out == cfg && trace == [trace[0]] && err == Some(KeyMapRequestFailed(reply.error)))
        && (reply.Success? && |reply.value| < |u.serverPubkeys| ==>
              out == cfg && trace == [trace[0]] && err == Some(KeyMapShrank))
        && (reply.Success? && |reply.value| >= |u.serverPubkeys| ==>
              && ListsMap(out.ucenter.serverPubkeys, reply.value)
              && trace == [trace[0], Save(out)]
              && err == SaveOutcome(env, out))
  {
    out, trace, err := cfg, [], None;
    var v := cfg.verify;
    var keys := cfg.ucenter.serverPubkeys;
    key := CachedKey(keys, v.licversion);
    if key != "" {
      return;
    }
    var server := cfg.ucenter.serverAddress;
    trace := [KeyMapRequest(server, v.txid, v.voutid)];
    var reply := env.authority.requestKeyMap(server, v.txid, v.voutid);
    if reply.Failure? {
      err := Some(KeyMapRequestFailed(reply.error));
      return;
    }
    var m := reply.value;
    if |m| < |keys| {
      err := Some(KeyMapShrank);
      return;
    }
    var vps;
    vps, key := ListKeyMap(m, v.licversion);
    out := cfg.(ucenter := cfg.ucenter.(serverPubkeys := vps));
    trace := trace + [Save(out)];
    err := SaveOutcome(env, out);
  }

  /** The lookup loop over the cached keys: the first entry with the
      version wins. */
  method CachedKey(keys: seq<VersionPubkey>, ver: int) returns (key: string)
    ensures key == FirstKey(keys, ver)
    ensures key != "" ==> exists j :: 0 <= j < |keys| && keys[j] == VersionPubkey(ver, key)
  {
    key := "";
    var i := 0;
    while i < |keys|
      invariant 0 <= i <= |keys|
      invariant FirstKey(keys, ver) == FirstKey(keys[i..], ver)
    {
      assert keys[i..][1..] == keys[i + 1..];
      if keys[i].licversion == ver {
        key := keys[i].pubkey;
        return;
      }
      i := i + 1;
    }
  }

  /** The loop over the fetched map (in its iteration order, which is
      arbitrary) that builds the new cache and picks the key for `ver`. */
  method ListKeyMap(m: map<int, string>, ver: int) returns (vps: seq<VersionPubkey>, key: string)
    ensures ListsMap(vps, m)
    ensures key == if ver in m then m[ver] else ""
  {
    vps, key := [], "";
    var rest := m.Keys;
    while rest != {}
      invariant rest <= m.Keys
      invariant |vps| == |m.Keys - rest|
      invariant forall j :: 0 <= j < |vps| ==> vps[j].licversion in m.Keys - rest && m[vps[j].licversion] == vps[j].pubkey
      invariant forall w :: w in m.Keys - rest ==> VersionPubkey(w, m[w]) in vps
      invariant key == if ver in m.Keys - rest then m[ver] else ""
      decreases |rest|
    {
      NonEmptyHasMember(rest);
      var w :| w in rest;
      assert m.Keys - (rest - {w}) == (m.Keys - rest) + {w};
      vps := vps + [VersionPubkey(w, m[w])];
      if w == ver {
        key := m[w];
      }
      rest := rest - {w};
    }
    assert m.Keys - rest == m.Keys;
  }

  /** A set that is not empty has a member. */
  lemma NonEmptyHasMember(s: set<int>)
    requires s != {}
    ensures exists x :: x in s
  {
    if forall x :: x !in s {
      assert false;
    }
  }

  /** The node identity hash: (txid, voutid as int32, node public key,
      period, license version), in that order. */
  function NodeHash(v: VerifyInfo, pubkey: string, a: Authority): string
  {
    a.nodeInfoHash(v.txid, GoInt.Int32(v.voutid), pubkey, v.period, v.licversion)
  }

  /** Step 5: the license must be the authority's signature over the node
      identity hash. A negative answer is "verify failed"; a failing check is
      reported with its cause. */
  function CheckLicense(v: VerifyInfo, pubkey: string, serverKey: string, a: Authority): (r: Option<DaemonError>)
    ensures var answer := a.verifySignature(NodeHash(v, pubkey, a), v.license, serverKey);
      && (r.None? <==> answer == Success(true))
      && (r == Some(VerifyFailed) <==> answer == Success(false))
      && (answer.Failure? ==> r == Some(VerifyError(answer.error)))
  {
    match a.verifySignature(NodeHash(v, pubkey, a), v.license, serverKey)
    case Failure(cause) => Some(VerifyError(cause))
    case Success(ok) => if ok then None else Some(VerifyFailed)
  }

  /** The license in `v` is the authority's signature, under the key
      resolved for its version, over the node identity hash built with the
      public key derived from the node's secret. */
  ghost predicate LicenseAccepted(v: VerifyInfo, u: UCenterInfo, a: Authority)
  {
    && a.publicKeyOf(v.secret).Success?
    && a.verifySignature(NodeHash(v, a.publicKeyOf(v.secret).value, a), v.license, ServerKey(v, u, a))
       == Success(true)
  }

  /** The configurations `doVerify` may end with: the outcome of step 1,
      then, when step 1 succeeds and the node key is derived, an outcome of
      step 3 from there. */
  ghost predicate DoVerifyConfig(rcfg: Config, env: Env, cfg: Config)
  {
    var (c1, _, e1) := RenewOutcome(rcfg, env);
    if e1.Some? || env.authority.publicKeyOf(c1.verify.secret).Failure? then cfg == c1
    else KeyStepConfig(c1, env, cfg)
  }

  /** The calls `doVerify` makes when it ends with `cfg`: those of step 1,
      then those of step 3 when it is reached. */
  function DoVerifyTrace(rcfg: Config, env: Env, cfg: Config): seq<Effect>
  {
    var (c1, t1, e1) := RenewOutcome(rcfg, env);
    if e1.Some? || env.authority.publicKeyOf(c1.verify.secret).Failure? then t1
    else t1 + KeyStepTrace(c1, env, cfg)
  }

  /** The error `doVerify` reports when it ends with `cfg`: the first step
      that fails (renewal, node key, authority key), else the signature
      check against the resolved key. */
  function DoVerifyError(rcfg: Config, env: Env, cfg: Config): Option<DaemonError>
  {
    var (c1, _, e1) := RenewOutcome(rcfg, env);
    if e1.Some? then e1
    else
      match env.authority.publicKeyOf(c1.verify.secret)
      case Failure(cause) => Some(PubkeyFailed(cause))
      case Success(pk) =>
        var ek := KeyStepError(c1, env, cfg);
        if ek.Some? then ek
        else CheckLicense(c1.verify, pk, ServerKey(c1.verify, c1.ucenter, env.authority), env.authority)
  }

  /** `doVerify` succeeds exactly when every step does and the signature
      check answers true; success means the license checks out. */
  lemma DoVerifyAccepts(rcfg: Config, env: Env, cfg: Config)
    requires DoVerifyConfig(rcfg, env, cfg)
    ensures var (c1, _, e1) := RenewOutcome(rcfg, env);
      DoVerifyError(rcfg, env, cfg).None? <==>
        && e1.None?
        && env.authority.publicKeyOf(c1.verify.secret).Success?
        && KeyStepError(c1, env, cfg).None?
        && LicenseAccepted(c1.verify, c1.ucenter, env.authority)
    ensures DoVerifyError(rcfg, env, cfg).None? ==> LicenseAccepted(cfg.verify, rcfg.ucenter, env.authority)
  {
    var (c1, _, e1) := RenewOutcome(rcfg, env);
    assert c1.ucenter == rcfg.ucenter;
    if e1.None? && env.authority.publicKeyOf(c1.verify.secret).Success? {
      assert cfg.verify == c1.verify;
    }
  }

  /** `doVerify`: renew, derive the node key, resolve the authority key,
      check the signature. */
  method DoVerify(rcfg: Config, env: Env) returns (cfg: Config, trace: seq<Effect>, err: Option<DaemonError>)
    ensures DoVerifyConfig(rcfg, env, cfg)
    ensures trace == DoVerifyTrace(rcfg, env, cfg) && err == DoVerifyError(rcfg, env, cfg)
    // a license is requested exactly when the license is unusable
    ensures var v := rcfg.verify;
      NeedsRenewal(v, env.now) <==> LicenseRequest(rcfg.ucenter.serverAddress, v.txid, v.voutid) in trace
    ensures forall e :: e in trace && e.LicenseRequest? ==> NeedsRenewal(rcfg.verify, env.now)
    // a usable license and a cached key: no request and no write
    ensures !NeedsRenewal(rcfg.verify, env.now)
            && FirstKey(rcfg.ucenter.serverPubkeys, rcfg.verify.licversion) != "" ==>
              trace == [] && cfg == rcfg
    // only the license fields and the key cache change, and the cache never gets shorter
    ensures cfg.verify == rcfg.verify
            || (NeedsRenewal(rcfg.verify, env.now)
                && var reply := env.authority.requestLicense(rcfg.ucenter.serverAddress, rcfg.verify.txid, rcfg.verify.voutid);
                   reply.Success? && cfg.verify == Renewed(rcfg, reply.value).verify)
    ensures cfg.report == rcfg.report && cfg.ucenter.serverAddress == rcfg.ucenter.serverAddress
    ensures cfg.routingType == rcfg.routingType && cfg.peerId == rcfg.peerId
    ensures |cfg.ucenter.serverPubkeys| >= |rcfg.ucenter.serverPubkeys|
    ensures cfg.verify.txid == rcfg.verify.txid && cfg.verify.voutid == rcfg.verify.voutid
            && cfg.verify.secret == rcfg.verify.secret
    // the first call that leaves the process is a request, never a write
    ensures trace != [] ==> IsRequest(trace[0])
    // acceptance only when the signature checks out against the resolved key
    ensures err.None? ==> LicenseAccepted(cfg.verify, rcfg.ucenter, env.authority)
  {
    cfg, trace, err := RenewLicense(rcfg, env);
    if err.Some? {
      return;
    }
    var pubkey := env.authority.publicKeyOf(cfg.verify.secret);
    if pubkey.Failure? {
      err := Some(PubkeyFailed(pubkey.error));
      return;
    }
    var key, more;
    ghost var renewed := cfg;
    cfg, key, more, err := ResolveServerKey(cfg, env);
    assert renewed.ucenter == rcfg.ucenter;
    assert forall e :: e in more ==> !e.LicenseRequest?;
    trace := trace + more;
    if err.Some? {
      return;
    }
    err := CheckLicense(cfg.verify, pubkey.value, key, env.authority);
  }

  /** The cache check compares only sizes: a fetched map as large as the
      cache is accepted even when it lacks a version the cache knew, and
      that version is then gone from the cache. */
  lemma CountCheckCanDropVersion(vps: seq<VersionPubkey>)
    requires ListsMap(vps, map[2 := "key-2"])
    ensures !(|map[2 := "key-2"]| < |[VersionPubkey(1, "key-1")]|)
    ensures FirstKey([VersionPubkey(1, "key-1")], 1) == "key-1"
    ensures FirstKey(vps, 1) == ""
  {
    ListedKeysAreFound(vps, map[2 := "key-2"], 1);
  }
}
