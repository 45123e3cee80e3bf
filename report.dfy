/** The usage reporter's rules: how long it waits between reports, what a
    report says, and which responses of the collector count as accepted. */
module Report {
  import opened Wrappers
  import opened DaemonConfig
  import GoInt

  const MiB: int := 1024 * 1024

  /** A duration (in nanoseconds) as a whole number of seconds, the
      fraction dropped toward zero. */
  function WholeSeconds(d: int): int
  {
    GoInt.TruncDiv(d, NanosPerSecond)
  }

  /** The reporting interval: the configured bounds in whole seconds, and a
      wait of `min + rand.Intn(max - min)` seconds, in nanoseconds; none
      (the reporter does not run) when `max <= min`. `intn` is the random
      source, which for `n > 0` gives a value in `[0, n)`. */
  function ReportInterval(durMin: int, durMax: int, intn: int -> int): (r: Option<int>)
    requires forall n :: n > 0 ==> 0 <= intn(n) < n
    ensures r.None? <==> WholeSeconds(durMax) <= WholeSeconds(durMin)
    ensures r.Some? ==> r.value % NanosPerSecond == 0
    ensures r.Some? ==> WholeSeconds(durMin) * NanosPerSecond <= r.value < WholeSeconds(durMax) * NanosPerSecond
  {
    var lo := WholeSeconds(durMin);
    var hi := WholeSeconds(durMax);
    if hi <= lo then None
    else Some((lo + intn(hi - lo)) * NanosPerSecond)
  }

  /** For non-negative bounds every wait is shorter than the configured
      maximum and less than a second short of the configured minimum. */
  lemma IntervalWithinConfigured(durMin: int, durMax: int, intn: int -> int)
    requires forall n :: n > 0 ==> 0 <= intn(n) < n
    requires 0 <= durMin
    requires ReportInterval(durMin, durMax, intn).Some?
    ensures durMin - NanosPerSecond < ReportInterval(durMin, durMax, intn).value < durMax
  {
    var lo := WholeSeconds(durMin);
    var hi := WholeSeconds(durMax);
    assert hi > lo >= 0;
    assert durMax >= 0;
    assert hi * NanosPerSecond <= durMax;
  }

  /** The bounds are compared in whole seconds: 60.2 s and 60.9 s are the
      same second, and the reporter refuses to run. */
  lemma SameSecondRefuses(intn: int -> int)
    requires forall n :: n > 0 ==> 0 <= intn(n) < n
    ensures ReportInterval(60_200_000_000, 60_900_000_000, intn).None?
  {
    assert WholeSeconds(60_200_000_000) == 60;
    assert WholeSeconds(60_900_000_000) == 60;
  }

  /** Every whole second from the minimum up to, but not including, the
      maximum is a possible wait. */
  lemma EverySecondIsPossible(durMin: int, durMax: int, k: int)
    requires 0 <= k < WholeSeconds(durMax) - WholeSeconds(durMin)
    ensures ReportInterval(durMin, durMax, n => if 0 <= k < n then k else 0)
            == Some((WholeSeconds(durMin) + k) * NanosPerSecond)
  {
  }

  /** Storage in whole MiB, the bytes divided down by 1024 twice with the
      remainder dropped, then stored in 32 bits. */
  function StorageMiB(usage: nat): (r: int)
    ensures -GoInt.TwoTo31 <= r < GoInt.TwoTo31
    ensures usage < GoInt.TwoTo31 * MiB ==> r * MiB <= usage < (r + 1) * MiB
  {
    var q := usage / 1024 / 1024;
    assert q == usage / MiB by {
      DivideTwice(usage);
    }
    GoInt.Int32(q)
  }

  /** Dividing by 1024 twice is dividing by one MiB. */
  lemma DivideTwice(x: nat)
    ensures x / 1024 / 1024 == x / MiB
  {
    var q := x / 1024;
    var q2 := q / 1024;
    assert x == 1024 * q + x % 1024;
    assert q == 1024 * q2 + q % 1024;
    assert x == MiB * q2 + (1024 * (q % 1024) + x % 1024);
  }

  /** Truncation in whole MiB; a count of 2^31 MiB or more wraps negative. */
  lemma StorageExamples()
    ensures StorageMiB(3_145_728) == 3
    ensures StorageMiB(3_145_727) == 2
    ensures StorageMiB(GoInt.TwoTo31 * MiB) == -GoInt.TwoTo31
  {
    assert GoInt.Int32(GoInt.TwoTo31) == -GoInt.TwoTo31;
  }

  /** What the ledger says about one peer since the last report: received
      and sent byte counts. */
  datatype LedgerDiff = LedgerDiff(id: string, recvDiff: int, sentDiff: int)

  /** One entry of the report list: this node, the peer, the counts in
      32 bits. */
  datatype ListEntry = ListEntry(src: string, id: string, inflow: int, outflow: int)

  datatype ReportData = ReportData(sign: string, account: string, id: string, ts: int,
                                   inflow: int, outflow: int, storage: int, list: seq<ListEntry>)

  datatype ReportError =
    | UsageFailed(cause: string)         // the storage usage could not be read
    | SignFailed(cause: string)
    | BadStatus(code: int)               // the collector did not answer 200
    | ReadFailed(cause: string)          // the response body could not be read
    | Unparsable(body: string)
    | Rejected(body: string)             // the collector's error code is not "OK"

  /** The entry reported for one ledger diff. */
  function EntryOf(src: string, d: LedgerDiff): ListEntry
  {
    ListEntry(src, d.id, GoInt.Int32(d.recvDiff), GoInt.Int32(d.sentDiff))
  }

  /** The report before signing: account and node identity from the
      configuration, the time, the storage in MiB, totals left at zero, and
      one entry per ledger diff in order. */
  function Unsigned(src: string, usage: nat, diffs: seq<LedgerDiff>, cfg: Config, ts: int): (r: ReportData)
    ensures |r.list| == |diffs|
    ensures forall i :: 0 <= i < |diffs| ==> r.list[i].src == src && r.list[i].id == diffs[i].id
    ensures r.sign == "" && r.inflow == 0 && r.outflow == 0
  {
    ReportData("", cfg.report.account, cfg.peerId, ts, 0, 0, StorageMiB(usage),
               seq(|diffs|, i requires 0 <= i < |diffs| => EntryOf(src, diffs[i])))
  }

  /** `buildReportData`: read the storage usage, list the ledger diffs, and
      sign the result with the node's secret. `usage` is what reading the
      storage usage gives; `sign` signs a report (its hash) with a secret. */
  method BuildReportData(src: string, usage: Result<nat, string>, diffs: seq<LedgerDiff>,
                         cfg: Config, ts: int, sign: (ReportData, string) -> Result<string, string>)
    returns (r: Result<ReportData, ReportError>)
    ensures usage.Failure? ==> r == Failure(UsageFailed(usage.error))
    ensures usage.Success? ==>
              var data := Unsigned(src, usage.value, diffs, cfg, ts);
              var signature := sign(data, cfg.verify.secret);
              && (signature.Failure? ==> r == Failure(SignFailed(signature.error)))
              && (signature.Success? ==> r == Success(data.(sign := signature.value)))
    ensures r.Success? ==>
              && |r.value.list| == |diffs|
              && (forall i :: 0 <= i < |diffs| ==> r.value.list[i] == EntryOf(src, diffs[i]))
              && r.value.storage == StorageMiB(usage.value)
              && r.value.account == cfg.report.account && r.value.id == cfg.peerId
  {
    if usage.Failure? {
      return Failure(UsageFailed(usage.error));
    }
    var storage := usage.value / 1024 / 1024;
    var list: seq<ListEntry> := [];
    var i := 0;
    while i < |diffs|
      invariant 0 <= i <= |diffs|
      invariant |list| == i
      invariant forall j :: 0 <= j < i ==> list[j] == EntryOf(src, diffs[j])
    {
      list := list + [ListEntry(src, diffs[i].id, GoInt.Int32(diffs[i].recvDiff), GoInt.Int32(diffs[i].sentDiff))];
      i := i + 1;
    }
    var data := ReportData("", cfg.report.account, cfg.peerId, ts, 0, 0, GoInt.Int32(storage), list);
    assert data == Unsigned(src, usage.value, diffs, cfg, ts);
    var signature := sign(data, cfg.verify.secret);
    if signature.Failure? {
      return Failure(SignFailed(signature.error));
    }
    return Success(data.(sign := signature.value));
  }

  /** The fields of the collector's answer. */
  datatype ResponseBody = ResponseBody(errorCode: string, success: bool, errorMsg: string)

  /** `handleReportResponse`: the collector accepts a report with status
      200, a readable body that parses, and the error code "OK". `body` is
      the outcome of reading the body; `parse` decodes it. */
  function HandleReportResponse(status: int, body: Result<string, string>,
                                parse: string -> Option<ResponseBody>): (r: Option<ReportError>)
    ensures r.None? <==> status == 200 && body.Success? && parse(body.value).Some?
                         && parse(body.value).value.errorCode == "OK"
    ensures status != 200 ==> r == Some(BadStatus(status))
    ensures status == 200 && body.Failure? ==> r == Some(ReadFailed(body.error))
    ensures status == 200 && body.Success? && parse(body.value).None? ==> r == Some(Unparsable(body.value))
    ensures status == 200 && body.Success? && parse(body.value).Some? && parse(body.value).value.errorCode != "OK"
            ==> r == Some(Rejected(body.value))
  {
    if status != 200 then Some(BadStatus(status))
    else if body.Failure? then Some(ReadFailed(body.error))
    else
      match parse(body.value)
      case None => Some(Unparsable(body.value))
      case Some(rrb) => if rrb.errorCode != "OK" then Some(Rejected(body.value)) else None
  }

  /** Only the error code decides: the collector's success flag and message
      are not looked at, so `"OK"` with a false success flag is accepted and
      a true flag with another code is rejected. */
  lemma SuccessFlagIgnored(body: string, parse: string -> Option<ResponseBody>, code: string, msg: string)
    requires parse(body) == Some(ResponseBody(code, false, msg))
    ensures HandleReportResponse(200, Success(body), parse).None? <==> code == "OK"
    ensures forall p: string -> Option<ResponseBody> :: p(body) == Some(ResponseBody(code, true, "")) ==>
              HandleReportResponse(200, Success(body), p) == HandleReportResponse(200, Success(body), parse)
  {
  }
}
