/** The daemon's start-up decisions: command-line options that override the
    stored verification and reporting fields, the prerequisites of online
    mode, the license check, the choice of routing, and the refusal to
    mount in offline mode. Also the three-try yes/no prompt. */
module Daemon {
  import opened Wrappers
  import opened DaemonConfig
  import License
  import GoInt

  /** The daemon options that these decisions read. `voutid` is -1 when the
      option is not given; the string options are empty when not given;
      `routing` defaults to "default". */
  datatype DaemonOptions = DaemonOptions(offline: bool, txid: string, voutid: int,
                                         secret: string, account: string,
                                         routing: string, mount: bool)

  /** The value of the voutid option when it is not given. */
  const NoVoutid: int := -1

  /** Some option overrides a stored field. */
  predicate Overrides(o: DaemonOptions)
  {
    o.txid != "" || o.voutid != NoVoutid || o.secret != "" || o.account != ""
  }

  /** The configuration with the given options written over it; the voutid
      option is stored as a 32-bit value. */
  function Overridden(c: Config, o: DaemonOptions): Config
  {
    var v := c.verify;
    var v1 := if o.txid != "" then v.(txid := o.txid) else v;
    var v2 := if o.voutid != NoVoutid then v1.(voutid := GoInt.Int32(o.voutid)) else v1;
    var v3 := if o.secret != "" then v2.(secret := o.secret) else v2;
    var r := if o.account != "" then c.report.(account := o.account) else c.report;
    c.(verify := v3, report := r)
  }

  /** The override block: each given option replaces its field and asks for
      a write of the configuration. */
  method ApplyOverrides(rcfg: Config, o: DaemonOptions) returns (cfg: Config, needSave: bool)
    ensures cfg == Overridden(rcfg, o)
    ensures needSave <==> Overrides(o)
    ensures cfg.verify.txid == if o.txid != "" then o.txid else rcfg.verify.txid
    ensures cfg.verify.voutid == if o.voutid != NoVoutid then GoInt.Int32(o.voutid) else rcfg.verify.voutid
    ensures cfg.verify.secret == if o.secret != "" then o.secret else rcfg.verify.secret
    ensures cfg.report.account == if o.account != "" then o.account else rcfg.report.account
    ensures (cfg.verify.license, cfg.verify.period, cfg.verify.licversion)
            == (rcfg.verify.license, rcfg.verify.period, rcfg.verify.licversion)
    ensures cfg.ucenter == rcfg.ucenter && cfg.routingType == rcfg.routingType && cfg.peerId == rcfg.peerId
    ensures cfg.report.(account := rcfg.report.account) == rcfg.report
  {
    cfg, needSave := rcfg, false;
    if o.txid != "" {
      cfg := cfg.(verify := cfg.verify.(txid := o.txid));
      needSave := true;
    }
    if o.voutid != NoVoutid {
      cfg := cfg.(verify := cfg.verify.(voutid := GoInt.Int32(o.voutid)));
      needSave := true;
    }
    if o.secret != "" {
      cfg := cfg.(verify := cfg.verify.(secret := o.secret));
      needSave := true;
    }
    if o.account != "" {
      cfg := cfg.(report := cfg.report.(account := o.account));
      needSave := true;
    }
  }

  /** Without options the configuration is left as it is. */
  lemma NoOptionsNoChange(c: Config, o: DaemonOptions)
    requires !Overrides(o)
    ensures Overridden(c, o) == c
  {
  }

  /** Starting again with the same options changes nothing more, though it
      still writes the configuration: the write is decided by which options
      are given, not by whether a field changed. */
  lemma OverridesAreIdempotent(c: Config, o: DaemonOptions)
    ensures Overridden(Overridden(c, o), o) == Overridden(c, o)
  {
  }

  /** The stored voutid is always a 32-bit value once the option is given:
      an option value outside that range wraps. */
  lemma StoredVoutidWraps()
    ensures Overridden(Config(VerifyInfo("", 0, "", "", 0, 0), UCenterInfo("", []),
                              ReportInfo("", "", 0, 0, 0), "", ""),
                       DaemonOptions(false, "", 4294967297, "", "", "default", false)).verify.voutid == 1
  {
    assert GoInt.Int32(4294967297) == 1;
  }

  /** The routing modes a node can be built with. */
  datatype RoutingMode = DHTClientRouting | DHTRouting | NilRouting

  /** The option keyword of each mode. */
  function RoutingKeyword(m: RoutingMode): string
  {
    match m
    case DHTClientRouting => "dhtclient"
    case DHTRouting => "dht"
    case NilRouting => "none"
  }

  /** The routing switch on an explicit option. */
  function SelectRouting(option: string): (r: Result<RoutingMode, DaemonError>)
    ensures r.Success? <==> option in {"dhtclient", "dht", "none"}
    ensures r.Success? ==> RoutingKeyword(r.value) == option
    ensures option == "supernode" ==> r == Failure(SupernodeRemoved)
    ensures option !in {"dhtclient", "dht", "none", "supernode"} ==> r == Failure(UnrecognizedRouting(option))
  {
    if option == "supernode" then Failure(SupernodeRemoved)
    else if option == "dhtclient" then Success(DHTClientRouting)
    else if option == "dht" then Success(DHTRouting)
    else if option == "none" then Success(NilRouting)
    else Failure(UnrecognizedRouting(option))
  }

  /** Routing resolution: "default" stands for the configured routing type,
      read from the repository's configuration again (`readError` is that
      read's error, if any), and for "dht" when none is configured; the
      result then goes through the routing switch. */
  function ResolveRouting(option: string, configured: string, readError: Option<string>)
    : (r: Result<RoutingMode, DaemonError>)
    ensures option != "default" ==> r == SelectRouting(option)
    ensures r.Failure? && r.error.ConfigReadFailed? <==> option == "default" && readError.Some?
    ensures option == "default" && readError.Some? ==> r == Failure(ConfigReadFailed(readError.value))
    ensures option == "default" && readError.None? ==>
              r == SelectRouting(if configured == "" then "dht" else configured)
  {
    if option == "default" then
      if readError.Some? then Failure(ConfigReadFailed(readError.value))
      else if configured == "" then SelectRouting("dht")
      else SelectRouting(configured)
    else SelectRouting(option)
  }

  /** Every mode is reached by its own keyword, whatever is configured, and
      a mode is reached from a keyword only through that keyword or through
      "default". */
  lemma {:induction false} RoutingKeywords(m: RoutingMode, option: string, configured: string, readError: Option<string>)
    ensures ResolveRouting(RoutingKeyword(m), configured, readError) == Success(m)
    ensures option != "default" && ResolveRouting(option, configured, readError) == Success(m) ==>
              option == RoutingKeyword(m)
    ensures ResolveRouting("default", configured, readError) == Success(m) ==>
              readError.None? && RoutingKeyword(m) == if configured == "" then "dht" else configured
  {
    var k := RoutingKeyword(m);
    assert k in {"dhtclient", "dht", "none"};
    assert SelectRouting(k).Success?;
    assert RoutingKeyword(SelectRouting(k).value) == k;
  }

  /** A configured routing type of "default" is not itself a mode, and
      "supernode" is refused wherever it comes from. */
  lemma DefaultIsNotAMode()
    ensures ResolveRouting("default", "default", None) == Failure(UnrecognizedRouting("default"))
    ensures ResolveRouting("default", "supernode", None) == Failure(SupernodeRemoved)
    ensures ResolveRouting("supernode", "dht", None) == Failure(SupernodeRemoved)
  {
  }

  /** The mount guard: mounting needs the node online. */
  function MountGuard(mount: bool, offline: bool): (r: Option<DaemonError>)
    ensures r.Some? <==> mount && offline
    ensures r.Some? ==> r.value == MountOffline
  {
    if mount && offline then Some(MountOffline) else None
  }

  /** The prerequisites of online mode hold of a configuration. */
  predicate OnlineReady(c: Config, env: Env)
  {
    env.checkVerifyInfo(c.verify).None? && env.checkUCenterInfo(c.ucenter).None? && c.report.account != ""
  }

  /** The online checks, in order: the verification fields, the authority
      settings, then the reporting account. */
  function CheckOnline(c: Config, env: Env): (r: Option<DaemonError>)
    ensures r.None? <==> OnlineReady(c, env)
    ensures env.checkVerifyInfo(c.verify).Some? ==> r == Some(CheckVerifyInfoFailed(env.checkVerifyInfo(c.verify).value))
    ensures env.checkVerifyInfo(c.verify).None? && env.checkUCenterInfo(c.ucenter).Some? ==>
              r == Some(CheckUCenterInfoFailed(env.checkUCenterInfo(c.ucenter).value))
    ensures env.checkVerifyInfo(c.verify).None? && env.checkUCenterInfo(c.ucenter).None? && c.report.account == "" ==>
              r == Some(MissingAccount)
  {
    match env.checkVerifyInfo(c.verify)
    case Some(cause) => Some(CheckVerifyInfoFailed(cause))
    case None =>
      match env.checkUCenterInfo(c.ucenter)
      case Some(cause) => Some(CheckUCenterInfoFailed(cause))
      case None => if c.report.account == "" then Some(MissingAccount) else None
  }

  /** The write of the overridden configuration: made exactly when an
      option is given. */
  function SaveTrace(rcfg: Config, o: DaemonOptions): seq<Effect>
  {
    if Overrides(o) then [Save(Overridden(rcfg, o))] else []
  }

  /** The error of that write, if it is made and fails. */
  function SaveStep(rcfg: Config, o: DaemonOptions, env: Env): Option<DaemonError>
  {
    if Overrides(o) then License.SaveOutcome(env, Overridden(rcfg, o)) else None
  }

  /** Start-up reaches the license check: the write (if any) succeeded, the
      node is online and its prerequisites hold. */
  predicate ReachesVerify(rcfg: Config, o: DaemonOptions, env: Env)
  {
    SaveStep(rcfg, o, env).None? && !o.offline && CheckOnline(Overridden(rcfg, o), env).None?
  }

  /** The configurations start-up may end with: the overridden one, or an
      outcome of the license check from there when it is reached. */
  ghost predicate StartupConfig(rcfg: Config, o: DaemonOptions, env: Env, cfg: Config)
  {
    if ReachesVerify(rcfg, o, env) then License.DoVerifyConfig(Overridden(rcfg, o), env, cfg)
    else cfg == Overridden(rcfg, o)
  }

  /** The calls start-up makes when it ends with `cfg`: the write of the
      options, then those of the license check when it is reached. */
  function StartupTrace(rcfg: Config, o: DaemonOptions, env: Env, cfg: Config): seq<Effect>
  {
    if ReachesVerify(rcfg, o, env) then SaveTrace(rcfg, o) + License.DoVerifyTrace(Overridden(rcfg, o), env, cfg)
    else SaveTrace(rcfg, o)
  }

  /** The error start-up reports when it ends with `cfg`: that of the first
      stage that fails, in order the write of the options, the online checks,
      the license check, the routing and the mount guard. */
  function StartupError(rcfg: Config, o: DaemonOptions, env: Env, cfg: Config): Option<DaemonError>
  {
    var c0 := Overridden(rcfg, o);
    if SaveStep(rcfg, o, env).Some? then SaveStep(rcfg, o, env)
    else if !o.offline && CheckOnline(c0, env).Some? then CheckOnline(c0, env)
    else if !o.offline && License.DoVerifyError(c0, env, cfg).Some? then License.DoVerifyError(c0, env, cfg)
    else if ResolveRouting(o.routing, rcfg.routingType, env.readConfigError).Failure? then
      Some(ResolveRouting(o.routing, rcfg.routingType, env.readConfigError).error)
    else MountGuard(o.mount, o.offline)
  }

  /** Start-up succeeds exactly when every stage passes. */
  lemma StartupSucceeds(rcfg: Config, o: DaemonOptions, env: Env, cfg: Config)
    ensures StartupError(rcfg, o, env, cfg).None? <==>
              && SaveStep(rcfg, o, env).None?
              && (!o.offline ==> OnlineReady(Overridden(rcfg, o), env)
                                 && License.DoVerifyError(Overridden(rcfg, o), env, cfg).None?)
              && ResolveRouting(o.routing, rcfg.routingType, env.readConfigError).Success?
              && !(o.mount && o.offline)
  {
  }

  /** The start-up sequence up to the point where the node runs: apply the
      options and write them, check and verify when online, resolve the
      routing, and refuse to mount offline. `cfg` is the configuration the
      node runs with. */
  method Startup(rcfg: Config, o: DaemonOptions, env: Env)
    returns (cfg: Config, mode: Option<RoutingMode>, trace: seq<Effect>, err: Option<DaemonError>)
    ensures StartupConfig(rcfg, o, env, cfg)
    ensures trace == StartupTrace(rcfg, o, env, cfg) && err == StartupError(rcfg, o, env, cfg)
    // the options are written first, exactly when one of them is given
    ensures Overrides(o) <==> trace != [] && trace[0] == Save(Overridden(rcfg, o))
    ensures Overrides(o) && License.SaveOutcome(env, Overridden(rcfg, o)).Some? ==>
              trace == [Save(Overridden(rcfg, o))] && err == License.SaveOutcome(env, Overridden(rcfg, o))
    // offline: no checks, no license work, at most the one write
    ensures o.offline ==> trace == (if Overrides(o) then [Save(Overridden(rcfg, o))] else [])
    // nothing goes to the authority before the online prerequisites hold
    ensures (exists e :: e in trace && IsRequest(e)) ==> !o.offline && OnlineReady(Overridden(rcfg, o), env)
    // online and accepted: the prerequisites hold and the license checks out
    ensures !o.offline && err.None? ==>
              && OnlineReady(Overridden(rcfg, o), env)
              && License.LicenseAccepted(cfg.verify, rcfg.ucenter, env.authority)
    ensures o.offline ==> cfg == Overridden(rcfg, o)
    ensures cfg.report == Overridden(rcfg, o).report && cfg.routingType == rcfg.routingType
    // the node runs with the resolved routing, and never mounted offline
    ensures err.None? ==> mode == Some(ResolveRouting(o.routing, rcfg.routingType, env.readConfigError).value)
    ensures err.None? ==> MountGuard(o.mount, o.offline).None?
    ensures o.mount && o.offline ==> err.Some?
    ensures ResolveRouting(o.routing, rcfg.routingType, env.readConfigError).Failure? ==> err.Some?
  {
    var needSave;
    cfg, needSave := ApplyOverrides(rcfg, o);
    mode, trace, err := None, [], None;
    if needSave {
      trace := [Save(cfg)];
      err := License.SaveOutcome(env, cfg);
      if err.Some? {
        return;
      }
    }
    if !o.offline {
      err := CheckOnline(cfg, env);
      if err.Some? {
        return;
      }
      var more;
      ghost var before := cfg;
      cfg, more, err := License.DoVerify(cfg, env);
      assert more != [] ==> IsRequest(more[0]);
      trace := trace + more;
      if err.Some? {
        return;
      }
    }
    var routing := ResolveRouting(o.routing, cfg.routingType, env.readConfigError);
    if routing.Failure? {
      err := Some(routing.error);
      return;
    }
    mode := Some(routing.value);
    err := MountGuard(o.mount, o.offline);
  }

  /** What `fmt.Scanf("%s", &s)` does on each try: a word read, or a failed
      scan (end of input, an empty line) that leaves `s` as it was. Tries
      past the end of `scans` fail. */
  function Scan(scans: seq<Option<string>>, k: nat): Option<string>
  {
    if k < |scans| then scans[k] else None
  }

  /** The answer a word gives: yes, no (an empty word is no), or none. */
  function Decide(s: string): Option<bool>
  {
    if s == "y" || s == "Y" then Some(true)
    else if s == "n" || s == "N" || s == "" then Some(false)
    else None
  }

  /** The prompt from try `k` on with `s` holding the last word read: the
      answer and the number of tries used. */
  function PromptFrom(scans: seq<Option<string>>, k: nat, s: string): (bool, nat)
    requires k <= 3
    decreases 3 - k
  {
    if k == 3 then (false, 3)
    else
      var s' := if Scan(scans, k).Some? then Scan(scans, k).value else s;
      match Decide(s')
      case Some(b) => (b, k + 1)
      case None => PromptFrom(scans, k + 1, s')
  }

  /** The tries PromptFrom counts: at least one more than those already
      made and never more than three; once three tries are used up, the
      answer is no. */
  lemma {:induction false} PromptFromBounds(scans: seq<Option<string>>, k: nat, s: string)
    requires k <= 3
    ensures var (answer, tries) := PromptFrom(scans, k, s);
      && (k < 3 ==> k < tries) && tries <= 3
      && (k == 3 ==> (answer, tries) == (false, 3))
    decreases 3 - k
  {
    if k < 3 {
      var s' := if Scan(scans, k).Some? then Scan(scans, k).value else s;
      if Decide(s').None? {
        PromptFromBounds(scans, k + 1, s');
      }
    }
  }

  /** The word `s` holds after `n` tries starting from `s`: the last word
      read, or `s` itself when every scan so far failed. */
  function Held(scans: seq<Option<string>>, n: nat, s: string): string
  {
    if n == 0 then s
    else if Scan(scans, n - 1).Some? then Scan(scans, n - 1).value
    else Held(scans, n - 1, s)
  }

  /** What the prompt answers from try `k` on, in terms of the words held:
      it stops at the first try whose word decides and answers with that
      word; when none of the remaining tries decides, it answers no after
      three. */
  lemma {:induction false} PromptFromMeaning(scans: seq<Option<string>>, k: nat)
    requires k < 3
    ensures var (answer, tries) := PromptFrom(scans, k, Held(scans, k, ""));
      && k < tries <= 3
      && (forall t :: k < t < tries ==> Decide(Held(scans, t, "")).None?)
      && (Decide(Held(scans, tries, "")).Some? ==> answer == Decide(Held(scans, tries, "")).value)
      && (Decide(Held(scans, tries, "")).None? ==> tries == 3 && !answer)
    decreases 3 - k
  {
    var s' := Held(scans, k + 1, "");
    assert s' == if Scan(scans, k).Some? then Scan(scans, k).value else Held(scans, k, "");
    if Decide(s').None? && k + 1 < 3 {
      PromptFromMeaning(scans, k + 1);
    }
  }

  /** `YesNoPrompt`: up to three tries; "y" or "Y" is yes, "n", "N" or an
      empty word is no, any other word asks again; three tries without an
      answer are no. */
  method YesNoPrompt(scans: seq<Option<string>>) returns (answer: bool, tries: nat)
    ensures (answer, tries) == PromptFrom(scans, 0, "")
    ensures 1 <= tries <= 3
    // every earlier try held a word that decides nothing
    ensures forall t :: 0 < t < tries ==> Decide(Held(scans, t, "")).None?
    // the word held at the last try decides, or three tries are used up and the answer is no
    ensures Decide(Held(scans, tries, "")).Some? ==> answer == Decide(Held(scans, tries, "")).value
    ensures Decide(Held(scans, tries, "")).None? ==> tries == 3 && !answer
    ensures answer ==> Held(scans, tries, "") == "y" || Held(scans, tries, "") == "Y"
  {
    PromptFromMeaning(scans, 0);
    var s := "";
    var i := 0;
    while i < 3
      invariant 0 <= i <= 3
      invariant PromptFrom(scans, 0, "") == PromptFrom(scans, i, s)
    {
      var scanned := Scan(scans, i);
      if scanned.Some? {
        s := scanned.value;
      }
      if s == "y" || s == "Y" {
        return true, i + 1;
      } else if s == "n" || s == "N" || s == "" {
        return false, i + 1;
      }
      i := i + 1;
    }
    answer, tries := false, 3;
  }

  /** A deciding first word answers at once, whatever follows. */
  lemma FirstWordDecides(w: string, rest: seq<Option<string>>)
    requires Decide(w).Some?
    ensures PromptFrom([Some(w)] + rest, 0, "") == (Decide(w).value, 1)
  {
  }

  /** With no input at all the prompt answers no at the first try. */
  lemma NoInputIsNo(scans: seq<Option<string>>)
    requires forall k :: 0 <= k < |scans| ==> scans[k].None?
    ensures PromptFrom(scans, 0, "") == (false, 1)
  {
    assert Scan(scans, 0).None?;
  }

  /** A word that decides nothing is kept when later scans fail, so it is
      read again on every remaining try and the answer is no after three. */
  lemma StaleWordRepeats(w: string)
    requires Decide(w).None?
    ensures PromptFrom([Some(w)], 0, "") == (false, 3)
  {
    assert Scan([Some(w)], 1).None? && Scan([Some(w)], 2).None?;
  }
}
