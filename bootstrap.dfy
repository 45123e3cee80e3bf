/** Conversion between the configured bootstrap address strings and parsed
    bootstrap peers. Parsing one address and printing one peer belong to the
    multiaddress library; they are given as an `AddrCodec`. */
module Bootstrap {
  import opened Wrappers

  /** A parsed bootstrap peer: a transport address and the peer identity
      that follows `/ipfs/` in it. */
  datatype BootstrapPeer = BootstrapPeer(transport: string, peerId: string)

  /** The single-address parser and the printer of the address library. */
  datatype AddrCodec = AddrCodec(parse: string -> Result<BootstrapPeer, string>,
                                 render: BootstrapPeer -> string)

  /** The hard-coded bootstrap addresses. */
  const DefaultBootstrapAddresses: seq<string> := [
    "/dns4/bootstrap0.udfs.one/tcp/4001/ipfs/QmZwfRydFZrL9ARqpqKLjP8b8EYQcDPYD6DxyxKmxbYGsd",
    "/dns4/bootstrap1.udfs.one/tcp/4001/ipfs/QmYtMoTxTMCETEwJgB3JAz8Ysx8D9pScH9HojPCMK6KPwz",
    "/dns4/bootstrap2.udfs.one/tcp/4001/ipfs/QmaV2SD8BrDv8FRjd9cqUXA5W7DA4EjH9VKqbkFYBVygPM",
    "/dns4/bootstrap3.udfs.one/tcp/4001/ipfs/QmX58rWnvtRVV16evApDzSkYvboz19M5zMTVNBtQPssiGL"
  ]

  datatype BootstrapError =
    | InvalidAddr(cause: string)        // an address the library refused
    | BadDefaults(cause: string)        // a hard-coded address the library refused

  /** All-or-nothing parse of an address list, as a specification: every
      address parsed in order, or the error of the first that fails. */
  function ParseAll(addrs: seq<string>, codec: AddrCodec): (r: Result<seq<BootstrapPeer>, BootstrapError>)
    ensures r.Success? <==> forall i :: 0 <= i < |addrs| ==> codec.parse(addrs[i]).Success?
    ensures r.Success? ==> |r.value| == |addrs|
    ensures r.Success? ==> forall i :: 0 <= i < |addrs| ==> r.value[i] == codec.parse(addrs[i]).value
    ensures r.Failure? ==> exists k :: 0 <= k < |addrs| && codec.parse(addrs[k]) == Failure(r.error.cause)
                                      && r.error == InvalidAddr(r.error.cause)
                                      && forall j :: 0 <= j < k ==> codec.parse(addrs[j]).Success?
    decreases |addrs|
  {
    if addrs == [] then Success([])
    else
      match codec.parse(addrs[0])
      case Failure(e) => Failure(InvalidAddr(e))
      case Success(p) =>
        match ParseAll(addrs[1..], codec)
        case Failure(e) =>
          assert forall i :: 1 <= i < |addrs| ==> addrs[i] == addrs[1..][i - 1];
          Failure(e)
        case Success(ps) =>
          assert forall i :: 1 <= i < |addrs| ==> addrs[i] == addrs[1..][i - 1];
          Success([p] + ps)
  }

  /** Printing of a peer list, as a specification: one string per peer, in
      order. */
  function RenderAll(bps: seq<BootstrapPeer>, codec: AddrCodec): (r: seq<string>)
    ensures |r| == |bps|
    ensures forall i :: 0 <= i < |bps| ==> r[i] == codec.render(bps[i])
  {
    seq(|bps|, i requires 0 <= i < |bps| => codec.render(bps[i]))
  }

  /** `ParseBootstrapPeers`: fills a list of the input's length by index and
      gives up at the first address that does not parse. */
  method ParseBootstrapPeers(addrs: seq<string>, codec: AddrCodec)
    returns (r: Result<seq<BootstrapPeer>, BootstrapError>)
    ensures r == ParseAll(addrs, codec)
    ensures r.Success? ==> |r.value| == |addrs|
    ensures r.Failure? ==> exists k :: 0 <= k < |addrs| && codec.parse(addrs[k]) == Failure(r.error.cause)
  {
    var peers := new BootstrapPeer[|addrs|];
    var i := 0;
    while i < |addrs|
      invariant 0 <= i <= |addrs|
      invariant forall j :: 0 <= j < i ==> codec.parse(addrs[j]).Success? && peers[j] == codec.parse(addrs[j]).value
    {
      var p := codec.parse(addrs[i]);
      if p.Failure? {
        ghost var spec := ParseAll(addrs, codec);
        assert spec.Failure?;
        ghost var k :| 0 <= k < |addrs| && codec.parse(addrs[k]) == Failure(spec.error.cause)
                       && spec.error == InvalidAddr(spec.error.cause)
                       && forall j :: 0 <= j < k ==> codec.parse(addrs[j]).Success?;
        assert k == i;
        return Failure(InvalidAddr(p.error));
      }
      peers[i] := p.value;
      i := i + 1;
    }
    assert peers[..] == ParseAll(addrs, codec).value;
    return Success(peers[..]);
  }

  /** `BootstrapPeerStrings`: fills a list of the input's length by index
      with each peer's printed form. */
  method BootstrapPeerStrings(bps: seq<BootstrapPeer>, codec: AddrCodec) returns (r: seq<string>)
    ensures r == RenderAll(bps, codec)
    ensures |r| == |bps| && forall i :: 0 <= i < |bps| ==> r[i] == codec.render(bps[i])
  {
    var out := new string[|bps|];
    var i := 0;
    while i < |bps|
      invariant 0 <= i <= |bps|
      invariant forall j :: 0 <= j < i ==> out[j] == codec.render(bps[j])
    {
      out[i] := codec.render(bps[i]);
      i := i + 1;
    }
    return out[..];
  }

  /** `DefaultBootstrapPeers`: the parsed hard-coded list, or an error that
      reports the first hard-coded address that fails. */
  method DefaultBootstrapPeers(codec: AddrCodec) returns (r: Result<seq<BootstrapPeer>, BootstrapError>)
    ensures r.Success? <==> ParseAll(DefaultBootstrapAddresses, codec).Success?
    ensures r.Success? ==> r.value == ParseAll(DefaultBootstrapAddresses, codec).value
                           && |r.value| == 4
    ensures r.Failure? ==> r.error == BadDefaults(ParseAll(DefaultBootstrapAddresses, codec).error.cause)
  {
    var ps := ParseBootstrapPeers(DefaultBootstrapAddresses, codec);
    if ps.Failure? {
      return Failure(BadDefaults(ps.error.cause));
    }
    return ps;
  }

  /** When the library reads back what it prints, printing a peer list and
      parsing it again gives the same list. */
  lemma {:induction false} RenderThenParse(bps: seq<BootstrapPeer>, codec: AddrCodec)
    requires forall i :: 0 <= i < |bps| ==> codec.parse(codec.render(bps[i])) == Success(bps[i])
    ensures ParseAll(RenderAll(bps, codec), codec) == Success(bps)
  {
    var strs := RenderAll(bps, codec);
    var r := ParseAll(strs, codec);
    assert forall i :: 0 <= i < |strs| ==> codec.parse(strs[i]) == Success(bps[i]);
    assert r.Success?;
    assert |r.value| == |bps|;
    assert forall i :: 0 <= i < |bps| ==> r.value[i] == bps[i];
    assert r.value == bps;
  }

  /** The bootstrap part of the node configuration. */
  class Config {
    var bootstrap: seq<string>

    constructor (bootstrap: seq<string>)
      ensures this.bootstrap == bootstrap
    {
      this.bootstrap := bootstrap;
    }

    /** `BootstrapPeers`: the configured addresses, parsed all or nothing. */
    method BootstrapPeers(codec: AddrCodec) returns (r: Result<seq<BootstrapPeer>, BootstrapError>)
      ensures r == ParseAll(bootstrap, codec)
    {
      r := ParseBootstrapPeers(bootstrap, codec);
    }

    /** `SetBootstrapPeers`: replaces the configured addresses by the printed
        peers and changes nothing else. */
    method SetBootstrapPeers(bps: seq<BootstrapPeer>, codec: AddrCodec)
      modifies this`bootstrap
      ensures bootstrap == RenderAll(bps, codec)
    {
      bootstrap := BootstrapPeerStrings(bps, codec);
    }
  }

  /** Storing peers in the configuration and reading them back gives the
      same peers, provided the library reads back what it prints. */
  method SetThenGet(c: Config, bps: seq<BootstrapPeer>, codec: AddrCodec)
    returns (r: Result<seq<BootstrapPeer>, BootstrapError>)
    requires forall i :: 0 <= i < |bps| ==> codec.parse(codec.render(bps[i])) == Success(bps[i])
    modifies c`bootstrap
    ensures r == Success(bps)
  {
    c.SetBootstrapPeers(bps, codec);
    r := c.BootstrapPeers(codec);
    RenderThenParse(bps, codec);
  }
}
