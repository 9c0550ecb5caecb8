/**
 Elapsed times of flights from wall clocks. Instants and wall clocks are whole minutes; a zone is any
 function giving the minutes it runs ahead of UTC at an instant.
 */
module FlightClock {
  import opened Wrappers

  type Zone = nat
  type Offsets = (Zone, int) -> int

  const HOUR: nat := 60
  const MAX_OFFSET: nat := 14 * 60
  const TWO_DAYS: nat := 2 * 24 * 60

  // ---- What is assumed of a zone ----

  ghost predicate Bounded(off: Offsets, z: Zone) {
    forall t: int :: 0 - MAX_OFFSET <= off(z, t) <= MAX_OFFSET
  }

  /** Offsets change on UTC hours only. */
  ghost predicate Hourly(off: Offsets, z: Zone) {
    forall t: int {:trigger HourStart(t)} :: off(z, t) == off(z, HourStart(t))
  }

  /** At most one change in any two days. */
  ghost predicate RarelyChanges(off: Offsets, z: Zone) {
    forall a: int, b: int, c: int :: a <= b <= c && c - a <= TWO_DAYS ==>
      off(z, a) == off(z, b) || off(z, b) == off(z, c)
  }

  ghost predicate Regular(off: Offsets, z: Zone) {
    Bounded(off, z) && RarelyChanges(off, z)
  }

  function HourStart(t: int): int {
    HOUR * (t / HOUR)
  }

  /** What the clock on the wall reads at an instant. */
  function Local(off: Offsets, z: Zone, t: int): int {
    t + off(z, t)
  }

  // ---- Reading a wall clock back ----

  /** The instant a wall clock names: one guess, one correction. */
  function InstantOf(off: Offsets, z: Zone, wall: int): int {
    var first := off(z, wall);
    var candidate := wall - first;
    var second := off(z, candidate);
    if second == first then candidate else wall - second
  }

  /** A wall clock the zone never shows lies in the hour skipped in spring. */
  ghost predicate InGap(off: Offsets, z: Zone, wall: int) {
    forall t: int :: Local(off, z, t) != wall
  }

  ghost predicate Unambiguous(off: Offsets, z: Zone, t: int) {
    forall s: int :: Local(off, z, s) == Local(off, z, t) ==> s == t
  }

  /** Around one wall clock only two offsets are in force. */
  lemma TwoOffsets(off: Offsets, z: Zone, wall: int, a: int, b: int, c: int)
    requires Regular(off, z)
    requires wall - MAX_OFFSET <= a <= wall + MAX_OFFSET
    requires wall - MAX_OFFSET <= b <= wall + MAX_OFFSET
    requires wall - MAX_OFFSET <= c <= wall + MAX_OFFSET
    ensures off(z, a) == off(z, b) || off(z, b) == off(z, c) || off(z, a) == off(z, c)
  {
    if a <= b {
      if b <= c {
      } else if a <= c {
        assert a <= c <= b;
      } else {
        assert c <= a <= b;
      }
    } else if a <= c {
      assert b <= a <= c;
    } else if b <= c {
      assert b <= c <= a;
    } else {
      assert c <= b <= a;
    }
  }

  lemma NearWall(off: Offsets, z: Zone, t: int)
    requires Bounded(off, z)
    ensures Local(off, z, t) - MAX_OFFSET <= t <= Local(off, z, t) + MAX_OFFSET
  {
    assert 0 - MAX_OFFSET <= off(z, t) <= MAX_OFFSET;
  }

  /**
   Exactly when the second reading recovers the instant: unless the clock shows the same time twice and
   the other time is the one whose offset the first guess met.
   */
  lemma ReadsBackExactly(off: Offsets, z: Zone, t: int)
    requires Regular(off, z)
    ensures InstantOf(off, z, Local(off, z, t)) == t <==>
            Unambiguous(off, z, t) || off(z, t) == off(z, Local(off, z, t))
    ensures Local(off, z, InstantOf(off, z, Local(off, z, t))) == Local(off, z, t)
  {
    var wall := Local(off, z, t);
    var first := off(z, wall);
    var candidate := wall - first;
    NearWall(off, z, t);
    assert 0 - MAX_OFFSET <= first <= MAX_OFFSET;
    if first != off(z, t) {
      TwoOffsets(off, z, wall, wall, t, candidate);
      if off(z, candidate) == first {
        assert Local(off, z, candidate) == wall && candidate != t;
      } else {
        assert InstantOf(off, z, wall) == t;
        forall s: int | Local(off, z, s) == wall ensures s == t {
          NearWall(off, z, s);
          TwoOffsets(off, z, wall, wall, t, s);
          assert off(z, s) == first ==> s == candidate;
        }
      }
    }
  }

  /** The answer's clock reads the given time exactly when the clock ever does. */
  lemma RightOutsideGaps(off: Offsets, z: Zone, wall: int)
    requires Regular(off, z)
    ensures Local(off, z, InstantOf(off, z, wall)) == wall <==> !InGap(off, z, wall)
  {
    if !InGap(off, z, wall) {
      var t: int :| Local(off, z, t) == wall;
      ReadsBackExactly(off, z, t);
    }
  }

  // ---- Elapsed times ----

  function MinutesBetween(off: Offsets, fromZone: Zone, from: int, toZone: Zone, to: int): Option<nat> {
    var minutes := InstantOf(off, toZone, to) - InstantOf(off, fromZone, from);
    if minutes > 0 then Some(minutes) else None
  }

  /** How far from an instant the two readings of its wall clock end up. */
  ghost function Misread(off: Offsets, z: Zone, t: int): int {
    if Unambiguous(off, z, t) || off(z, t) == off(z, Local(off, z, t)) then 0
    else off(z, t) - off(z, Local(off, z, t))
  }

  lemma ReadsBackMisread(off: Offsets, z: Zone, t: int)
    requires Regular(off, z)
    ensures InstantOf(off, z, Local(off, z, t)) == t + Misread(off, z, t)
  {
    ReadsBackExactly(off, z, t);
  }

  /**
   Exactly when a flight is measured right: when both ends are misread by the same amount, as they are
   when neither is misread. A time shown once, or shown under the offset the first guess meets, is not.
   */
  lemma ElapsedExactlyWhenMisreadAlike(off: Offsets, fromZone: Zone, departure: int, toZone: Zone, arrival: int)
    requires Regular(off, fromZone) && Regular(off, toZone) && departure < arrival
    ensures
      MinutesBetween(off, fromZone, Local(off, fromZone, departure), toZone, Local(off, toZone, arrival))
      == Some(arrival - departure)
      <==> Misread(off, fromZone, departure) == Misread(off, toZone, arrival)
  {
    ReadsBackMisread(off, fromZone, departure);
    ReadsBackMisread(off, toZone, arrival);
  }

  /** So a flight that leaves and lands at times shown once is measured exactly. */
  lemma ElapsedIsExact(off: Offsets, fromZone: Zone, departure: int, toZone: Zone, arrival: int)
    requires Regular(off, fromZone) && Regular(off, toZone) && departure < arrival
    requires Unambiguous(off, fromZone, departure) && Unambiguous(off, toZone, arrival)
    ensures
      MinutesBetween(off, fromZone, Local(off, fromZone, departure), toZone, Local(off, toZone, arrival))
      == Some(arrival - departure)
  {
    ElapsedExactlyWhenMisreadAlike(off, fromZone, departure, toZone, arrival);
  }

  /** Winter time begins at instant 0: the clock falls back by one hour, east of Greenwich. */
  function FallBack(z: Zone, t: int): int {
    if t < 0 then 120 else 60
  }

  lemma FallBackIsRegular(z: Zone)
    ensures Regular(FallBack, z) && Hourly(FallBack, z)
  {
  }

  /** The catalogue is not right always: an arrival in the hour shown twice, read as its second pass,
      adds an hour to the flight, and only the arrival is misread. */
  lemma RepeatedHourCountsTwice(z: Zone)
    ensures Regular(FallBack, z) && Hourly(FallBack, z)
    ensures MinutesBetween(FallBack, z, Local(FallBack, z, -90), z, Local(FallBack, z, -30)) == Some(120)
    ensures Misread(FallBack, z, -90) == 0 && Misread(FallBack, z, -30) == 60
  {
    FallBackIsRegular(z);
    ReadsBackMisread(FallBack, z, -90);
    ReadsBackMisread(FallBack, z, -30);
  }

  // ---- A whole leg ----

  datatype Segment = Segment(origin: Zone, destination: Zone, departureAt: int, arrivalAt: int)

  ghost predicate Flown(off: Offsets, s: Segment) {
    MinutesBetween(off, s.origin, s.departureAt, s.destination, s.arrivalAt).Some?
  }

  function FlightMinutes(off: Offsets, s: Segment): nat {
    MinutesBetween(off, s.origin, s.departureAt, s.destination, s.arrivalAt).GetOr(0)
  }

  function SumFlights(off: Offsets, segments: seq<Segment>): nat {
    if segments == [] then 0
    else SumFlights(off, segments[..|segments| - 1]) + FlightMinutes(off, segments[|segments| - 1])
  }

  /** Connections by the digits alone: one airport, one clock. */
  function SumLayovers(segments: seq<Segment>): int {
    if |segments| < 2 then 0
    else
      var n := |segments|;
      SumLayovers(segments[..n - 1]) + (segments[n - 1].departureAt - segments[n - 2].arrivalAt)
  }

  /** The connection stays at one airport, is shown on its clock, and sees no change of offset. */
  ghost predicate KeepsOneOffset(off: Offsets, arrived: Segment, leaving: Segment) {
    && arrived.destination == leaving.origin
    && !InGap(off, leaving.origin, arrived.arrivalAt) && !InGap(off, leaving.origin, leaving.departureAt)
    && off(leaving.origin, InstantOf(off, leaving.origin, arrived.arrivalAt)) ==
        off(leaving.origin, InstantOf(off, leaving.origin, leaving.departureAt))
  }

  lemma LayoverByDigits(off: Offsets, arrived: Segment, leaving: Segment)
    requires Regular(off, leaving.origin) && KeepsOneOffset(off, arrived, leaving)
    ensures InstantOf(off, leaving.origin, leaving.departureAt) - InstantOf(off, leaving.origin, arrived.arrivalAt)
         == leaving.departureAt - arrived.arrivalAt
  {
    RightOutsideGaps(off, leaving.origin, arrived.arrivalAt);
    RightOutsideGaps(off, leaving.origin, leaving.departureAt);
  }

  /** The flight's minutes are those between its two instants. */
  ghost predicate FlightAddsUp(off: Offsets, s: Segment) {
    FlightMinutes(off, s) == InstantOf(off, s.destination, s.arrivalAt) - InstantOf(off, s.origin, s.departureAt)
  }

  /** The digits between two flights are the minutes between their instants, at one airport. */
  ghost predicate LayoverAddsUp(off: Offsets, arrived: Segment, leaving: Segment) {
    && arrived.destination == leaving.origin
    && InstantOf(off, leaving.origin, leaving.departureAt) - InstantOf(off, leaving.origin, arrived.arrivalAt)
       == leaving.departureAt - arrived.arrivalAt
  }

  lemma OneMoreFlight(off: Offsets, before: seq<Segment>, leaving: Segment)
    ensures SumFlights(off, before + [leaving]) == SumFlights(off, before) + FlightMinutes(off, leaving)
    ensures SumLayovers(before + [leaving]) ==
        if before == [] then 0 else SumLayovers(before) + (leaving.departureAt - before[|before| - 1].arrivalAt)
  {
    assert (before + [leaving])[..|before|] == before;
  }

  lemma {:induction false} PartsAddUp(off: Offsets, segments: seq<Segment>)
    requires segments != []
    requires forall i :: 0 <= i < |segments| ==> FlightAddsUp(off, segments[i])
    requires forall i :: 0 <= i < |segments| - 1 ==> LayoverAddsUp(off, segments[i], segments[i + 1])
    ensures var first, last := segments[0], segments[|segments| - 1];
      InstantOf(off, last.destination, last.arrivalAt) - InstantOf(off, first.origin, first.departureAt)
      == SumFlights(off, segments) + SumLayovers(segments)
  {
    var n := |segments|;
    var before, leaving := segments[..n - 1], segments[n - 1];
    assert segments == before + [leaving] && FlightAddsUp(off, leaving);
    OneMoreFlight(off, before, leaving);
    if n > 1 {
      assert LayoverAddsUp(off, segments[n - 2], segments[n - 2 + 1]);
      PartsAddUp(off, before);
    }
  }

  /** Gate to gate by the clocks is the flights plus the connections, the same sum the long way. */
  lemma GateToGateIsTheSum(off: Offsets, segments: seq<Segment>)
    requires segments != []
    requires forall i :: 0 <= i < |segments| ==> Regular(off, segments[i].origin) && Flown(off, segments[i])
    requires forall i :: 0 <= i < |segments| - 1 ==> KeepsOneOffset(off, segments[i], segments[i + 1])
    ensures var first, last := segments[0], segments[|segments| - 1];
      InstantOf(off, last.destination, last.arrivalAt) - InstantOf(off, first.origin, first.departureAt)
      == SumFlights(off, segments) + SumLayovers(segments)
  {
    forall i | 0 <= i < |segments| - 1 ensures LayoverAddsUp(off, segments[i], segments[i + 1]) {
      LayoverByDigits(off, segments[i], segments[i + 1]);
    }
    forall i | 0 <= i < |segments| ensures FlightAddsUp(off, segments[i]) {
      assert Flown(off, segments[i]);
    }
    PartsAddUp(off, segments);
  }

  // ---- Through the catalogue ----

  type Code = nat

  /** Airport to zone, and the zones the runtime knows. */
  datatype Catalogue = Catalogue(zoneOf: Code -> Option<Zone>, known: Zone -> bool, offsets: Offsets)

  function CatalogueInstant(cat: Catalogue, zone: Zone, wall: Option<int>): Option<int> {
    if wall.Some? && cat.known(zone) then Some(InstantOf(cat.offsets, zone, wall.value)) else None
  }

  function ZonedMinutesBetween(cat: Catalogue, fromCode: Code, fromAt: Option<int>, toCode: Code,
      toAt: Option<int>): Option<nat>
  {
    match (cat.zoneOf(fromCode), cat.zoneOf(toCode))
    case (Some(fromZone), Some(toZone)) =>
      (match (CatalogueInstant(cat, fromZone, fromAt), CatalogueInstant(cat, toZone, toAt))
       case (Some(from), Some(to)) => if to - from > 0 then Some(to - from) else None
       case _ => None)
    case _ => None
  }

  function WallClockMinutesBetween(fromAt: Option<int>, toAt: Option<int>): Option<nat> {
    if fromAt.Some? && toAt.Some? && toAt.value - fromAt.value > 0 then Some(toAt.value - fromAt.value) else None
  }

  datatype Timing = Timing(origin: Code, destination: Code, departureAt: Option<int>, arrivalAt: Option<int>,
      durationMinutes: int)

  function Sum(xs: seq<int>): int {
    if xs == [] then 0 else Sum(xs[..|xs| - 1]) + xs[|xs| - 1]
  }

  function Durations(segments: seq<Timing>): seq<int> {
    seq(|segments|, i requires 0 <= i < |segments| => segments[i].durationMinutes)
  }

  function ResolveSegmentDuration(cat: Catalogue, s: Timing, provider: Option<int>): int {
    match ZonedMinutesBetween(cat, s.origin, s.departureAt, s.destination, s.arrivalAt)
    case Some(minutes) => minutes
    case None =>
      if provider.Some? && provider.value > 0 then provider.value
      else WallClockMinutesBetween(s.departureAt, s.arrivalAt).GetOr(0)
  }

  function ResolveItineraryDuration(cat: Catalogue, segments: seq<Timing>, layovers: seq<int>,
      provider: Option<int>): int
  {
    match ZonedLeg(cat, segments)
    case Some(minutes) => minutes
    case None =>
      var flown := Sum(Durations(segments));
      if flown > 0 && forall i :: 0 <= i < |segments| ==> segments[i].durationMinutes > 0 then flown + Sum(layovers)
      else if provider.Some? && provider.value > 0 then provider.value
      else if segments == [] then 0
      else WallClockMinutesBetween(segments[0].departureAt, segments[|segments| - 1].arrivalAt).GetOr(0)
  }

  /** Minutes between two wall clocks as the zones have them; nothing when an airport, its zone or a clock is
      not known or the arrival is not after the departure. */
  ghost predicate ClocksSay(cat: Catalogue, from: Code, fromAt: Option<int>, to: Code, toAt: Option<int>,
      minutes: int)
  {
    && cat.zoneOf(from).Some? && cat.zoneOf(to).Some? && fromAt.Some? && toAt.Some?
    && cat.known(cat.zoneOf(from).value) && cat.known(cat.zoneOf(to).value)
    && minutes > 0
    && minutes == InstantOf(cat.offsets, cat.zoneOf(to).value, toAt.value)
                  - InstantOf(cat.offsets, cat.zoneOf(from).value, fromAt.value)
  }

  ghost predicate ClocksAreSilent(cat: Catalogue, from: Code, fromAt: Option<int>, to: Code, toAt: Option<int>) {
    forall m: int :: !ClocksSay(cat, from, fromAt, to, toAt, m)
  }

  lemma ClocksSayOrAreSilent(cat: Catalogue, from: Code, fromAt: Option<int>, to: Code, toAt: Option<int>)
    ensures var zoned := ZonedMinutesBetween(cat, from, fromAt, to, toAt);
      if zoned.Some? then ClocksSay(cat, from, fromAt, to, toAt, zoned.value)
      else ClocksAreSilent(cat, from, fromAt, to, toAt)
  {
  }

  /** The difference of the digits, when it is a positive one. */
  function Digits(fromAt: Option<int>, toAt: Option<int>): int {
    if fromAt.Some? && toAt.Some? && toAt.value > fromAt.value then toAt.value - fromAt.value else 0
  }

  /** Whom a flight's minutes are taken from: the clocks before the provider, the provider before the digits. */
  lemma SegmentAsksInOrder(cat: Catalogue, s: Timing, provider: Option<int>, m: int)
    requires m == ResolveSegmentDuration(cat, s, provider)
    ensures var silent := ClocksAreSilent(cat, s.origin, s.departureAt, s.destination, s.arrivalAt);
      && (silent || ClocksSay(cat, s.origin, s.departureAt, s.destination, s.arrivalAt, m))
      && (silent && provider.Some? && provider.value > 0 ==> m == provider.value)
      && (silent && (provider.None? || provider.value <= 0) ==> m == Digits(s.departureAt, s.arrivalAt))
  {
    ClocksSayOrAreSilent(cat, s.origin, s.departureAt, s.destination, s.arrivalAt);
  }

  /** The same for a leg of some segments. */
  ghost predicate LegFollowsTheOrder(cat: Catalogue, segments: seq<Timing>, layovers: seq<int>, provider: Option<int>,
      m: int)
    requires segments != []
  {
    var first, last := segments[0], segments[|segments| - 1];
    var silent := ClocksAreSilent(cat, first.origin, first.departureAt, last.destination, last.arrivalAt);
    var timed := forall i :: 0 <= i < |segments| ==> segments[i].durationMinutes > 0;
    if !silent then ClocksSay(cat, first.origin, first.departureAt, last.destination, last.arrivalAt, m)
    else if timed then m == Sum(Durations(segments)) + Sum(layovers)
    else if provider.Some? && provider.value > 0 then m == provider.value
    else m == Digits(first.departureAt, last.arrivalAt)
  }

  /** And a leg's: the clocks at its two ends, then its parts when every flight has its minutes, then the
      provider, then the digits at its ends. */
  lemma LegAsksInOrder(cat: Catalogue, segments: seq<Timing>, layovers: seq<int>, provider: Option<int>, m: int)
    requires m == ResolveItineraryDuration(cat, segments, layovers, provider)
    ensures if segments != [] then LegFollowsTheOrder(cat, segments, layovers, provider, m)
      else m == if provider.Some? && provider.value > 0 then provider.value else 0
  {
    if segments != [] {
      var first, last := segments[0], segments[|segments| - 1];
      ClocksSayOrAreSilent(cat, first.origin, first.departureAt, last.destination, last.arrivalAt);
      if forall i :: 0 <= i < |segments| ==> segments[i].durationMinutes > 0 {
        TimedIsPositive(segments);
      }
    }
  }

  lemma {:induction false} TimedIsPositive(segments: seq<Timing>)
    requires forall i :: 0 <= i < |segments| ==> segments[i].durationMinutes > 0
    ensures segments != [] ==> Sum(Durations(segments)) > 0
  {
    if segments != [] {
      var n := |segments|;
      TimedIsPositive(segments[..n - 1]);
      assert Durations(segments)[..n - 1] == Durations(segments[..n - 1]);
    }
  }

  function ZonedLeg(cat: Catalogue, segments: seq<Timing>): Option<nat> {
    if segments == [] then None
    else
      var first, last := segments[0], segments[|segments| - 1];
      ZonedMinutesBetween(cat, first.origin, first.departureAt, last.destination, last.arrivalAt)
  }

  /** The clocks answered for this flight, and its zones are regular. */
  ghost predicate Clocked(cat: Catalogue, s: Timing) {
    && ZonedMinutesBetween(cat, s.origin, s.departureAt, s.destination, s.arrivalAt).Some?
    && Regular(cat.offsets, cat.zoneOf(s.origin).value)
  }

  ghost function AsSegment(cat: Catalogue, s: Timing): Segment
    requires Clocked(cat, s)
  {
    Segment(cat.zoneOf(s.origin).value, cat.zoneOf(s.destination).value, s.departureAt.value, s.arrivalAt.value)
  }

  ghost function AsSegments(cat: Catalogue, segments: seq<Timing>): (r: seq<Segment>)
    requires forall i :: 0 <= i < |segments| ==> Clocked(cat, segments[i])
    ensures |r| == |segments| && forall i :: 0 <= i < |r| ==> r[i] == AsSegment(cat, segments[i])
  {
    seq(|segments|, i requires 0 <= i < |segments| => AsSegment(cat, segments[i]))
  }

  ghost predicate ConnectsByDigits(cat: Catalogue, arrived: Timing, leaving: Timing, layover: int) {
    && Clocked(cat, arrived) && Clocked(cat, leaving)
    && layover == leaving.departureAt.value - arrived.arrivalAt.value
    && KeepsOneOffset(cat.offsets, AsSegment(cat, arrived), AsSegment(cat, leaving))
  }

  ghost predicate AllClocked(cat: Catalogue, segments: seq<Timing>) {
    forall i :: 0 <= i < |segments| ==> Clocked(cat, segments[i])
  }

  /** Each segment carries the minutes it was resolved to. */
  ghost predicate AllResolved(cat: Catalogue, segments: seq<Timing>) {
    forall i :: 0 <= i < |segments| ==> segments[i].durationMinutes == ResolveSegmentDuration(cat, segments[i], None)
  }

  ghost predicate AllConnect(cat: Catalogue, segments: seq<Timing>, layovers: seq<int>) {
    && |layovers| == |segments| - 1
    && forall i :: 0 <= i < |layovers| ==> ConnectsByDigits(cat, segments[i], segments[i + 1], layovers[i])
  }

  lemma {:induction false} SumsAgree(off: Offsets, segments: seq<Segment>, minutes: seq<int>)
    requires |minutes| == |segments|
    requires forall i :: 0 <= i < |segments| ==> minutes[i] == FlightMinutes(off, segments[i])
    ensures Sum(minutes) == SumFlights(off, segments)
  {
    if segments != [] {
      SumsAgree(off, segments[..|segments| - 1], minutes[..|minutes| - 1]);
    }
  }

  lemma FlightAgrees(cat: Catalogue, s: Timing)
    requires Clocked(cat, s) && s.durationMinutes == ResolveSegmentDuration(cat, s, None)
    ensures s.durationMinutes == FlightMinutes(cat.offsets, AsSegment(cat, s))
  {
  }

  lemma FlightsAgree(cat: Catalogue, segments: seq<Timing>)
    requires AllClocked(cat, segments) && AllResolved(cat, segments)
    ensures Sum(Durations(segments)) == SumFlights(cat.offsets, AsSegments(cat, segments))
  {
    forall i | 0 <= i < |segments|
      ensures Durations(segments)[i] == FlightMinutes(cat.offsets, AsSegments(cat, segments)[i])
    {
      FlightAgrees(cat, segments[i]);
    }
    SumsAgree(cat.offsets, AsSegments(cat, segments), Durations(segments));
  }

  lemma {:induction false} LayoversByDigits(segments: seq<Segment>, layovers: seq<int>)
    requires |layovers| == |segments| - 1
    requires forall i :: 0 <= i < |layovers| ==> layovers[i] == segments[i + 1].departureAt - segments[i].arrivalAt
    ensures Sum(layovers) == SumLayovers(segments)
  {
    var n := |segments|;
    if n > 1 {
      LayoversByDigits(segments[..n - 1], layovers[..n - 2]);
      assert layovers[n - 2] == segments[n - 2 + 1].departureAt - segments[n - 2].arrivalAt;
    }
  }

  lemma LayoversAgree(cat: Catalogue, segments: seq<Timing>, layovers: seq<int>)
    requires AllClocked(cat, segments) && AllConnect(cat, segments, layovers)
    ensures Sum(layovers) == SumLayovers(AsSegments(cat, segments))
  {
    var all := AsSegments(cat, segments);
    forall i | 0 <= i < |layovers| ensures layovers[i] == all[i + 1].departureAt - all[i].arrivalAt {
      assert ConnectsByDigits(cat, segments[i], segments[i + 1], layovers[i]);
      assert Clocked(cat, segments[i]) && Clocked(cat, segments[i + 1]);
    }
    LayoversByDigits(all, layovers);
  }

  lemma LegByClocks(cat: Catalogue, segments: seq<Timing>, layovers: seq<int>)
    requires segments != [] && AllClocked(cat, segments) && AllConnect(cat, segments, layovers)
    ensures var all := AsSegments(cat, segments);
      InstantOf(cat.offsets, all[|all| - 1].destination, all[|all| - 1].arrivalAt)
      - InstantOf(cat.offsets, all[0].origin, all[0].departureAt)
      == SumFlights(cat.offsets, all) + SumLayovers(all)
  {
    var all := AsSegments(cat, segments);
    forall i | 0 <= i < |all| ensures Regular(cat.offsets, all[i].origin) && Flown(cat.offsets, all[i]) {
      assert Clocked(cat, segments[i]);
    }
    forall i | 0 <= i < |all| - 1 ensures KeepsOneOffset(cat.offsets, all[i], all[i + 1]) {
      assert ConnectsByDigits(cat, segments[i], segments[i + 1], layovers[i]);
    }
    GateToGateIsTheSum(cat.offsets, all);
  }

  lemma ResolvedByClocks(cat: Catalogue, first: Timing, last: Timing)
    requires Clocked(cat, first) && Clocked(cat, last)
    ensures var from, to := AsSegment(cat, first), AsSegment(cat, last);
      var minutes :=
        InstantOf(cat.offsets, to.destination, to.arrivalAt) - InstantOf(cat.offsets, from.origin, from.departureAt);
      ZonedMinutesBetween(cat, first.origin, first.departureAt, last.destination, last.arrivalAt) ==
      if minutes > 0 then Some(minutes) else None
  {
  }

  lemma ClockedIsPositive(cat: Catalogue, s: Timing)
    requires Clocked(cat, s) && s.durationMinutes == ResolveSegmentDuration(cat, s, None)
    ensures s.durationMinutes > 0
  {
  }

  /**
   A leg whose flights were measured by the clocks and whose connections keep one offset lasts the
   flights plus the connections, whatever the provider said.
   */
  lemma LegIsFlightsPlusConnections(cat: Catalogue, segments: seq<Timing>, layovers: seq<int>, provider: Option<int>)
    requires segments != [] && AllClocked(cat, segments) && AllResolved(cat, segments)
        && AllConnect(cat, segments, layovers)
    requires forall i :: 0 <= i < |layovers| ==> layovers[i] >= 0
    ensures ResolveItineraryDuration(cat, segments, layovers, provider) == Sum(Durations(segments)) + Sum(layovers) > 0
  {
    var n := |segments|;
    FlightsAgree(cat, segments);
    LayoversAgree(cat, segments, layovers);
    LegByClocks(cat, segments, layovers);
    forall i | 0 <= i < n ensures segments[i].durationMinutes > 0 {
      ClockedIsPositive(cat, segments[i]);
    }
    TimedIsPositive(segments);
    SumIsNotNegative(layovers);
    assert Clocked(cat, segments[0]) && Clocked(cat, segments[n - 1]);
    ResolvedByClocks(cat, segments[0], segments[n - 1]);
  }

  /** Without the clocks at its ends, a leg of timed flights is that same sum. */
  lemma LegWithoutClocks(cat: Catalogue, segments: seq<Timing>, layovers: seq<int>, provider: Option<int>)
    requires segments != [] && forall i :: 0 <= i < |segments| ==> segments[i].durationMinutes > 0
    requires cat.zoneOf(segments[0].origin).None? || cat.zoneOf(segments[|segments| - 1].destination).None?
    ensures ResolveItineraryDuration(cat, segments, layovers, provider) == Sum(Durations(segments)) + Sum(layovers)
  {
    SumIsPositive(Durations(segments));
  }

  lemma {:induction false} SumIsNotNegative(xs: seq<int>)
    requires forall i :: 0 <= i < |xs| ==> xs[i] >= 0
    ensures Sum(xs) >= 0
  {
    if xs != [] {
      SumIsNotNegative(xs[..|xs| - 1]);
    }
  }

  lemma SumIsPositive(xs: seq<int>)
    requires xs != [] && forall i :: 0 <= i < |xs| ==> xs[i] > 0
    ensures Sum(xs) > 0
  {
    SumIsNotNegative(xs[..|xs| - 1]);
  }

  /** At one airport, with one offset in force at both ends, the digits alone give the elapsed time. */
  lemma DigitsAreEnoughAtOneAirport(cat: Catalogue, code: Code, from: int, to: int)
    requires cat.zoneOf(code).Some? && cat.known(cat.zoneOf(code).value) && Regular(cat.offsets, cat.zoneOf(code).value)
    requires var z := cat.zoneOf(code).value;
      KeepsOneOffset(cat.offsets, Segment(z, z, from, from), Segment(z, z, to, to))
    ensures WallClockMinutesBetween(Some(from), Some(to)) == ZonedMinutesBetween(cat, code, Some(from), code, Some(to))
  {
    var z := cat.zoneOf(code).value;
    LayoverByDigits(cat.offsets, Segment(z, z, from, from), Segment(z, z, to, to));
  }

  // ---- The offset cache ----

  const CACHE_MAX_ENTRIES: nat := 20_000

  type Cache = map<(Zone, int), int>

  function CacheKey(z: Zone, instant: int): (Zone, int) {
    (z, instant / HOUR)
  }

  function CachedOffset(cat: Catalogue, cache: Cache, z: Zone, instant: int): Option<int> {
    if CacheKey(z, instant) in cache then Some(cache[CacheKey(z, instant)])
    else if cat.known(z) then Some(cat.offsets(z, instant))
    else None
  }

  /** The cache once that offset was asked for: a full one is cleared before it takes another hour. */
  function CacheAfter(cat: Catalogue, cache: Cache, z: Zone, instant: int): Cache {
    if CacheKey(z, instant) in cache || !cat.known(z) then cache
    else
      (if |cache| >= CACHE_MAX_ENTRIES then map[] else cache)[CacheKey(z, instant) := cat.offsets(z, instant)]
  }

  function CacheAfterAll(cat: Catalogue, asked: seq<(Zone, int)>): Cache {
    if asked == [] then map[]
    else
      var last := asked[|asked| - 1];
      CacheAfter(cat, CacheAfterAll(cat, asked[..|asked| - 1]), last.0, last.1)
  }

  ghost predicate InHour(instant: int, hour: int) {
    instant / HOUR == hour
  }

  /** Every cached offset was in force at some time of its hour. */
  ghost predicate CacheOk(cat: Catalogue, cache: Cache) {
    && |cache| <= CACHE_MAX_ENTRIES
    && forall k :: k in cache ==>
         cat.known(k.0) && exists t: int :: InHour(t, k.1) && cache[k] == cat.offsets(k.0, t)
  }

  lemma CacheAfterIsOk(cat: Catalogue, cache: Cache, z: Zone, instant: int)
    requires CacheOk(cat, cache)
    ensures CacheOk(cat, CacheAfter(cat, cache, z, instant))
  {
    var key := CacheKey(z, instant);
    assert InHour(instant, key.1);
    if key !in cache && cat.known(z) {
      var kept: Cache := if |cache| >= CACHE_MAX_ENTRIES then map[] else cache;
      var after := kept[key := cat.offsets(z, instant)];
      assert after.Keys == kept.Keys + {key};
      assert |after| == |after.Keys| && |kept| == |kept.Keys|;
    }
  }

  /** A zone that changes on UTC hours is answered right, whatever was asked before. */
  lemma HourlyZoneIsAnsweredRight(cat: Catalogue, cache: Cache, z: Zone, instant: int)
    requires CacheOk(cat, cache) && Hourly(cat.offsets, z)
    ensures CachedOffset(cat, cache, z, instant) == if cat.known(z) then Some(cat.offsets(z, instant)) else None
  {
    var key := CacheKey(z, instant);
    if key in cache {
      var t: int :| InHour(t, key.1) && cache[key] == cat.offsets(z, t);
      assert HourStart(t) == HourStart(instant);
    }
  }

  lemma {:induction false} EveryCacheIsOk(cat: Catalogue, asked: seq<(Zone, int)>)
    ensures CacheOk(cat, CacheAfterAll(cat, asked))
  {
    if asked != [] {
      var last := asked[|asked| - 1];
      EveryCacheIsOk(cat, asked[..|asked| - 1]);
      CacheAfterIsOk(cat, CacheAfterAll(cat, asked[..|asked| - 1]), last.0, last.1);
    }
  }

  ghost predicate AnsweredRight(cat: Catalogue, asked: seq<(Zone, int)>, z: Zone, instant: int) {
    CachedOffset(cat, CacheAfterAll(cat, asked), z, instant) == Some(cat.offsets(z, instant))
  }

  /** The cache never changes an answer about a zone if and only if its offsets change on UTC hours. */
  lemma CacheIsRightExactlyWhenHourly(cat: Catalogue, z: Zone)
    requires cat.known(z)
    ensures (forall asked, instant :: AnsweredRight(cat, asked, z, instant)) <==> Hourly(cat.offsets, z)
  {
    if Hourly(cat.offsets, z) {
      forall asked, instant ensures AnsweredRight(cat, asked, z, instant) {
        EveryCacheIsOk(cat, asked);
        HourlyZoneIsAnsweredRight(cat, CacheAfterAll(cat, asked), z, instant);
      }
    } else {
      var t: int :| cat.offsets(z, t) != cat.offsets(z, HourStart(t));
      var asked := [(z, HourStart(t))];
      assert CacheAfterAll(cat, asked[..0]) == map[];
      assert CacheAfterAll(cat, asked) == CacheAfter(cat, map[], z, HourStart(t));
      assert CacheKey(z, t) == CacheKey(z, HourStart(t));
      assert !AnsweredRight(cat, asked, z, t);
    }
  }

  lemma TwoReadings(cat: Catalogue, z: Zone, wall: int, first: int, second: Option<int>, instant: int)
    requires cat.known(z)
    requires Hourly(cat.offsets, z) ==> first == cat.offsets(z, wall) && second == Some(cat.offsets(z, wall - first))
    requires instant == if second.None? || second.value == first then wall - first else wall - second.value
    ensures Hourly(cat.offsets, z) ==> CatalogueInstant(cat, z, Some(wall)) == Some(instant)
  {
  }

  ghost predicate HourlyAt(cat: Catalogue, code: Code) {
    cat.zoneOf(code).Some? ==> Hourly(cat.offsets, cat.zoneOf(code).value)
  }

  class ZoneClock {
    const cat: Catalogue
    var zoneOffsets: Cache

    ghost predicate Valid() reads this {
      CacheOk(cat, zoneOffsets)
    }

    constructor (cat: Catalogue)
      ensures Valid() && this.cat == cat && zoneOffsets == map[]
    {
      this.cat := cat;
      zoneOffsets := map[];
    }

    /** Cached or not, the answer is the zone's, for a zone that changes on UTC hours. */
    method OffsetMinutesAt(z: Zone, instant: int) returns (offset: Option<int>)
      requires Valid()
      modifies `zoneOffsets
      ensures Valid() && zoneOffsets == CacheAfter(cat, old(zoneOffsets), z, instant)
      ensures offset == CachedOffset(cat, old(zoneOffsets), z, instant)
      ensures Hourly(cat.offsets, z) ==> offset == if cat.known(z) then Some(cat.offsets(z, instant)) else None
    {
      CacheAfterIsOk(cat, zoneOffsets, z, instant);
      if Hourly(cat.offsets, z) {
        HourlyZoneIsAnsweredRight(cat, zoneOffsets, z, instant);
      }
      var key := (z, instant / HOUR);
      if key in zoneOffsets {
        return Some(zoneOffsets[key]);
      }
      if !cat.known(z) {
        return None;
      }
      var current := cat.offsets(z, instant);
      if |zoneOffsets| >= CACHE_MAX_ENTRIES {
        zoneOffsets := map[];
      }
      zoneOffsets := zoneOffsets[key := current];
      return Some(current);
    }

    method ReadInstant(wall: Option<int>, z: Zone) returns (instant: Option<int>)
      requires Valid()
      modifies `zoneOffsets
      ensures Valid()
      ensures instant.Some? <==> wall.Some? && cat.known(z)
      ensures Hourly(cat.offsets, z) ==> instant == CatalogueInstant(cat, z, wall)
    {
      if wall.None? {
        return None;
      }
      var first := OffsetMinutesAt(z, wall.value);
      if first.None? {
        return None;
      }
      var candidate := wall.value - first.value;
      var second := OffsetMinutesAt(z, candidate);
      instant := Some(if second.None? || second.value == first.value then candidate else wall.value - second.value);
      TwoReadings(cat, z, wall.value, first.value, second, instant.value);
    }

    method MinutesBetweenAirports(fromCode: Code, fromAt: Option<int>, toCode: Code, toAt: Option<int>)
      returns (minutes: Option<nat>)
      requires Valid()
      modifies `zoneOffsets
      ensures Valid()
      ensures HourlyAt(cat, fromCode) && HourlyAt(cat, toCode) ==>
        minutes == ZonedMinutesBetween(cat, fromCode, fromAt, toCode, toAt)
    {
      var fromZone, toZone := cat.zoneOf(fromCode), cat.zoneOf(toCode);
      assert HourlyAt(cat, fromCode) ==> fromZone.None? || Hourly(cat.offsets, fromZone.value);
      assert HourlyAt(cat, toCode) ==> toZone.None? || Hourly(cat.offsets, toZone.value);
      if fromZone.None? || toZone.None? {
        return None;
      }
      var from := ReadInstant(fromAt, fromZone.value);
      var to := ReadInstant(toAt, toZone.value);
      if from.None? || to.None? {
        return None;
      }
      minutes := if to.value - from.value > 0 then Some(to.value - from.value) else None;
    }
  }
}
