/** Hardened BIP-32 derivation paths (section "Path levels" of BIP-44: purpose,
    coin type, account), their `a'/b'/c'` string notation, and the rule the
    command sets use to turn a path argument into a list of indices. */
module Paths {
  import opened Wrappers
  import opened Text
  import opened Protocol

  /** BIP-32: an index at or above 2^31 derives a hardened child. */
  const HARDENED: nat := 0x8000_0000

  /** BIP-44 purpose level. */
  const PURPOSE: nat := 44

  function Harden(i: nat): (h: nat)
    ensures h >= HARDENED && h - HARDENED == i
  {
    HARDENED + i
  }

  /** A path together with its string notation (`AddressModel` in the source). */
  datatype AddressModel = AddressModel(path: seq<nat>, serializedPath: string, address: Option<string>)

  /** One hardened level written `n'`. */
  function Segment(level: nat): string
  {
    NatToString(level) + "'"
  }

  /** The notation `l0'/l1'/...` of a path all of whose levels are hardened. */
  function SerializeHardened(levels: seq<nat>): string
    requires |levels| >= 1
  {
    Join(seq(|levels|, i requires 0 <= i < |levels| => Segment(levels[i])), '/')
  }

  /** Reads one `n'` segment as the hardened index of `n`. */
  function ParseSegment(s: string): Option<nat>
  {
    if |s| < 2 || s[|s| - 1] != '\'' then None
    else
      match ParseNat(s[..|s| - 1])
      case None => None
      case Some(n) => Some(Harden(n))
  }

  function ParseSegments(parts: seq<string>): Option<seq<nat>>
  {
    if |parts| == 0 then Some([])
    else
      match (ParseSegment(parts[0]), ParseSegments(parts[1..]))
      case (Some(h), Some(rest)) => Some([h] + rest)
      case _ => None
  }

  /** Reads an all-hardened path notation; any malformed segment gives `None`. */
  function ParseHardened(s: string): Option<seq<nat>>
  {
    ParseSegments(Split(s, '/'))
  }

  lemma ParseSegmentOf(level: nat)
    ensures ParseSegment(Segment(level)) == Some(Harden(level))
  {
    var s := Segment(level);
    assert s[..|s| - 1] == NatToString(level);
    ParseNatToString(level);
  }

  lemma {:induction false} ParseSegmentsOf(levels: seq<nat>)
    ensures ParseSegments(seq(|levels|, i requires 0 <= i < |levels| => Segment(levels[i])))
            == Some(seq(|levels|, i requires 0 <= i < |levels| => Harden(levels[i])))
    decreases |levels|
  {
    var parts := seq(|levels|, i requires 0 <= i < |levels| => Segment(levels[i]));
    if |levels| > 0 {
      ParseSegmentOf(levels[0]);
      ParseSegmentsOf(levels[1..]);
      assert parts[1..] == seq(|levels[1..]|, i requires 0 <= i < |levels[1..]| => Segment(levels[1..][i]));
      assert seq(|levels|, i requires 0 <= i < |levels| => Harden(levels[i]))
          == [Harden(levels[0])] + seq(|levels[1..]|, i requires 0 <= i < |levels[1..]| => Harden(levels[1..][i]));
    }
  }

  /** Round trip: reading the notation of a path gives back the hardened path. */
  lemma SerializeParseRoundTrip(levels: seq<nat>)
    requires |levels| >= 1
    ensures ParseHardened(SerializeHardened(levels))
            == Some(seq(|levels|, i requires 0 <= i < |levels| => Harden(levels[i])))
  {
    var parts := seq(|levels|, i requires 0 <= i < |levels| => Segment(levels[i]));
    forall i | 0 <= i < |parts|
      ensures '/' !in parts[i]
    {
      NatToStringAvoids(levels[i], '/');
    }
    SplitJoin(parts, '/');
    ParseSegmentsOf(levels);
  }

  /** `GetAddressArray`: a list of indices is used as it is, a string goes
      through the path parser, whose exception propagates. */
  function AddressArray(path: PathArg, parse: PathParser): (r: Result<seq<nat>, Error>)
    ensures path.Indices? ==> r == Success(path.levels)
    ensures path.Text? ==> (r.Success? <==> parse(path.text).Some?)
    ensures path.Text? && r.Success? ==> r.value == parse(path.text).value
    ensures r.Failure? ==> r.error == PathParseFailure
  {
    match path
    case Indices(levels) => Success(levels)
    case Text(text) =>
      match parse(text)
      case None => Failure(PathParseFailure)
      case Some(levels) => Success(levels)
  }
}
