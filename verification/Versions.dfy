/** Agreement on a protocol version: what a client asks for, and what a protocol server makes of it. */
module Versions {
  import opened Wire

  datatype Answer = Answer(supported: bool, version: Version)

  /** The server's decision, for a request with `minVersion <= maxVersion`. Without an overlap it reports the bound of
      its own range that the request came closest to. */
  function GetSupportedVersion(serverMin: Version, serverMax: Version, minVersion: Version, maxVersion: Version): Answer
    requires minVersion <= maxVersion
  {
    var minLessThanEqMax := minVersion <= serverMax;
    var maxLessThanEqMax := maxVersion <= serverMax;
    var maxGreaterThanEqMin := maxVersion >= serverMin;
    if maxLessThanEqMax && maxGreaterThanEqMin then Answer(true, maxVersion)
    else if !maxLessThanEqMax && minLessThanEqMax then Answer(true, serverMax)
    else Answer(false, if !minLessThanEqMax then serverMax else serverMin)
  }

  predicate InBoth(v: Version, serverMin: Version, serverMax: Version, minVersion: Version, maxVersion: Version) {
    serverMin <= v <= serverMax && minVersion <= v <= maxVersion
  }

  /** The right answer: the greatest common version if there is one, and otherwise a refusal naming the
      nearest bound. */
  ghost predicate IsBestAnswer(a: Answer, serverMin: Version, serverMax: Version, minVersion: Version,
                               maxVersion: Version) {
    if a.supported then
      && InBoth(a.version, serverMin, serverMax, minVersion, maxVersion)
      && forall v: Version :: InBoth(v, serverMin, serverMax, minVersion, maxVersion) ==> v <= a.version
    else
      && (forall v: Version :: !InBoth(v, serverMin, serverMax, minVersion, maxVersion))
      && a.version == if minVersion > serverMax then serverMax else serverMin
  }

  /** The decision is right exactly if the server's own range is in order, or the request does not straddle its upper
      bound: a server built with its bounds the wrong way round accepts such a request although nothing is common. */
  lemma DecisionIsBestAnswer(serverMin: Version, serverMax: Version, minVersion: Version, maxVersion: Version)
    requires minVersion <= maxVersion
    ensures IsBestAnswer(GetSupportedVersion(serverMin, serverMax, minVersion, maxVersion),
                         serverMin, serverMax, minVersion, maxVersion)
            <==> (serverMin <= serverMax || !(minVersion <= serverMax < maxVersion))
  {
    var a := GetSupportedVersion(serverMin, serverMax, minVersion, maxVersion);
    if serverMin <= serverMax && !a.supported {
      forall v: Version ensures !InBoth(v, serverMin, serverMax, minVersion, maxVersion) {}
    }
  }

  /** Such a server, for the range 5 down to 3, accepts a request for 2 to 4 with version 3, which it does not
      support. */
  lemma InvertedBoundsAccept()
    ensures GetSupportedVersion(5, 3, 2, 4) == Answer(true, 3)
    ensures forall v: Version :: !InBoth(v, 5, 3, 2, 4)
  {}

  /** The upper bound a server reads from a request: older session protocols send none. */
  function RequestedMax(clientSessionVersion: Version, minVersion: Version, maxVersion: Version): (m: Version)
    ensures minVersion <= m
  {
    if clientSessionVersion >= SESSION_PROTOCOL_RANGE_VERSION then Max(maxVersion, minVersion) else minVersion
  }

  function Negotiate(serverMin: Version, serverMax: Version, request: Payload): Answer
    requires request.SynInfo?
  {
    GetSupportedVersion(serverMin, serverMax, request.minVersion,
                        RequestedMax(request.clientSessionVersion, request.minVersion, request.maxVersion))
  }

  /** A negotiated version 0 is sent as "none", for which the client substitutes its own minimum: which is
      then 0 too. */
  lemma ZeroIsTheMinimum(serverMin: Version, serverMax: Version, minVersion: Version, maxVersion: Version)
    requires minVersion <= maxVersion
    requires GetSupportedVersion(serverMin, serverMax, minVersion, maxVersion) == Answer(true, 0)
    ensures minVersion == 0
  {}
}
