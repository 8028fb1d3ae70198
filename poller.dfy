/** One round of the logger loop: the feed's vehicle records are turned into
    observations, records without a position are skipped, and each remaining one is
    saved with `save_trip`. Fetching and decoding the feed is not modelled; the
    result of the fetch is a parameter, and so are the clock readings. */
module Poller {
  import opened Wrappers
  import Classifier
  import opened LogStore

  /** The JSON values a vehicle record's fields can hold, as far as the loop cares.
      `Absent` is a missing key, which `dict.get` turns into its default. */
  datatype Json = Absent | Null | Num(n: int) | Text(s: string)

  /** One element of the feed's "Vehicles" list. */
  type FeedRecord = map<string, Json>

  /** `record.get(key)`, with `Absent` standing for the missing key. */
  function Get(r: FeedRecord, key: string): Json
  {
    if key in r then r[key] else Absent
  }

  /** `str(record.get(key, default))`, which is also what an f-string makes of the value:
      a JSON `null` becomes "None". */
  function Str(j: Json, default: string): string
  {
    match j
    case Absent => default
    case Null => "None"
    case Num(n) => Classifier.Decimal(n)
    case Text(s) => s
  }

  /** Both coordinates are present and not `null` (`lat is None or lon is None` skips). */
  function HasPosition(r: FeedRecord): (b: bool)
    ensures b <==> (Get(r, "Lat").Num? || Get(r, "Lat").Text?) && (Get(r, "Lng").Num? || Get(r, "Lng").Text?)
    ensures "Lat" !in r || "Lng" !in r ==> !b
  {
    Get(r, "Lat") != Absent && Get(r, "Lat") != Null && Get(r, "Lng") != Absent && Get(r, "Lng") != Null
  }

  /** The arguments the loop passes to `save_trip` for a record. */
  function ObservationOf(r: FeedRecord): (o: Observation)
    ensures "Course" !in r ==> o.tripId == "Unknown"
    ensures "LineName" !in r ==> o.line == "Ismeretlen"
    ensures "ID" !in r ==> o.vehicle == "Unknown"
    ensures "FinalStopName" !in r ==> o.dest == "Ismeretlen"
    ensures Get(r, "ID") == Null ==> o.vehicle == "None"
    ensures forall s :: Get(r, "ID") == Text(s) ==> o.vehicle == s
  {
    Observation(Str(Get(r, "Course"), "Unknown"), Str(Get(r, "LineName"), "Ismeretlen"),
                Str(Get(r, "ID"), "Unknown"), Str(Get(r, "FinalStopName"), "Ismeretlen"))
  }

  /** The `save_trip` calls one round makes: one per record with a position, in feed
      order, each with the clock readings taken when that record is reached. */
  function Events(feed: seq<FeedRecord>, stamps: seq<Stamp>): (r: seq<Event>)
    requires |stamps| == |feed|
    ensures |r| <= |feed|
    decreases |feed|
  {
    if |feed| == 0 then []
    else (if HasPosition(feed[0]) then [Event(ObservationOf(feed[0]), stamps[0])] else [])
         + Events(feed[1..], stamps[1..])
  }

  /** The decoded response: its "Vehicles" list, if it has one. */
  datatype Payload = Payload(vehicles: Option<seq<FeedRecord>>)

  /** `data.get("Vehicles", [])` */
  function VehiclesOf(data: Payload): seq<FeedRecord>
  {
    data.vehicles.GetOr([])
  }

  /** How the request ended: a status other than 200 or an exception is `Failed`. */
  datatype Fetch = Failed | Fetched(data: Payload)

  /** The number of clock readings a round takes: one per record of a successful fetch. */
  function RoundLength(fetch: Fetch): nat
  {
    if fetch.Failed? then 0 else |VehiclesOf(fetch.data)|
  }

  /** The files after one round. */
  function Polled(files: Files, fetch: Fetch, stamps: seq<Stamp>): Files
    requires |stamps| == RoundLength(fetch)
  {
    if fetch.Failed? then files else SaveAll(files, Events(VehiclesOf(fetch.data), stamps))
  }

  /** One round of `logger_loop`. */
  method PollOnce(store: FileStore, fetch: Fetch, stamps: seq<Stamp>)
    requires |stamps| == RoundLength(fetch)
    modifies store
    ensures store.files == Polled(old(store.files), fetch, stamps)
  {
    if fetch.Failed? {
      return;
    }
    var vehicles := VehiclesOf(fetch.data);
    var i := 0;
    while i < |vehicles|
      invariant 0 <= i <= |vehicles|
      invariant SaveAll(store.files, Events(vehicles[i..], stamps[i..])) == SaveAll(old(store.files), Events(vehicles, stamps))
    {
      var v := vehicles[i];
      var vehicleLabel := Str(Get(v, "ID"), "Unknown");
      var tripId := Str(Get(v, "Course"), "Unknown");
      var line := Str(Get(v, "LineName"), "Ismeretlen");
      var dest := Str(Get(v, "FinalStopName"), "Ismeretlen");
      var lat, lon := Get(v, "Lat"), Get(v, "Lng");
      ghost var rest := Events(vehicles[i + 1..], stamps[i + 1..]);
      assert vehicles[i..][1..] == vehicles[i + 1..] && stamps[i..][1..] == stamps[i + 1..];
      if lat == Absent || lat == Null || lon == Absent || lon == Null {
        assert Events(vehicles[i..], stamps[i..]) == rest;
      } else {
        var e := Event(Observation(tripId, line, vehicleLabel, dest), stamps[i]);
        assert Events(vehicles[i..], stamps[i..]) == [e] + rest;
        assert ([e] + rest)[1..] == rest;
        assert SaveAll(store.files, [e] + rest) == SaveAll(Saved(store.files, e), rest);
        store.SaveTrip(e);
      }
      i := i + 1;
    }
    assert vehicles[i..] == [] && stamps[i..] == [];
  }

  /** The events of consecutive parts of the feed are consecutive. */
  lemma {:induction false} EventsAppend(f1: seq<FeedRecord>, s1: seq<Stamp>, f2: seq<FeedRecord>, s2: seq<Stamp>)
    requires |s1| == |f1| && |s2| == |f2|
    ensures Events(f1 + f2, s1 + s2) == Events(f1, s1) + Events(f2, s2)
    decreases |f1|
  {
    if |f1| > 0 {
      EventsAppend(f1[1..], s1[1..], f2, s2);
      assert (f1 + f2)[1..] == f1[1..] + f2 && (s1 + s2)[1..] == s1[1..] + s2;
    } else {
      assert f1 + f2 == f2 && s1 + s2 == s2;
    }
  }

  /** Every event comes from a record with a position, with that record's observation. */
  lemma {:induction false} EventsFromPositioned(feed: seq<FeedRecord>, stamps: seq<Stamp>, k: nat)
    requires |stamps| == |feed| && k < |Events(feed, stamps)|
    ensures exists i :: 0 <= i < |feed| && HasPosition(feed[i]) &&
              Events(feed, stamps)[k] == Event(ObservationOf(feed[i]), stamps[i])
    decreases |feed|
  {
    var head := if HasPosition(feed[0]) then [Event(ObservationOf(feed[0]), stamps[0])] else [];
    var tail := Events(feed[1..], stamps[1..]);
    assert Events(feed, stamps) == head + tail;
    if k >= |head| {
      EventsFromPositioned(feed[1..], stamps[1..], k - |head|);
      var i :| 0 <= i < |feed[1..]| && HasPosition(feed[1..][i]) &&
               tail[k - |head|] == Event(ObservationOf(feed[1..][i]), stamps[1..][i]);
      assert feed[1..][i] == feed[i + 1] && stamps[1..][i] == stamps[i + 1];
    }
  }

  /** A record with a position is saved, with its own observation and clock readings:
      the events of the feed up to and including it end with its event. */
  lemma PositionedRecordSaved(feed: seq<FeedRecord>, stamps: seq<Stamp>, i: nat)
    requires |stamps| == |feed| && i < |feed| && HasPosition(feed[i])
    ensures var pre := Events(feed[..i + 1], stamps[..i + 1]);
      |pre| > 0 && pre[|pre| - 1] == Event(ObservationOf(feed[i]), stamps[i])
  {
    EventsAppend(feed[..i], stamps[..i], [feed[i]], [stamps[i]]);
    assert feed[..i + 1] == feed[..i] + [feed[i]] && stamps[..i + 1] == stamps[..i] + [stamps[i]];
    assert Events([feed[i]], [stamps[i]]) == [Event(ObservationOf(feed[i]), stamps[i])] + Events([], []);
  }

  /** A round over records none of which has a position saves nothing. */
  lemma {:induction false} NoPositionNoEvents(feed: seq<FeedRecord>, stamps: seq<Stamp>)
    requires |stamps| == |feed|
    requires forall i :: 0 <= i < |feed| ==> !HasPosition(feed[i])
    ensures Events(feed, stamps) == []
    decreases |feed|
  {
    if |feed| > 0 {
      NoPositionNoEvents(feed[1..], stamps[1..]);
    }
  }

  /** A numeric ID reaches the class tests unchanged: `int(str(n)) == n`. */
  lemma NumericIdClassified(n: int)
    ensures Classifier.ParseInt(Str(Num(n), "Unknown")) == Some(n)
    ensures Classifier.IsT3(Str(Num(n), "Unknown")) <==> 1500 <= n <= 1699
  {
    Classifier.ParseDecimal(n);
    Classifier.RangePredicates(n);
  }

  /** A record without an ID, or with a `null` one, is saved under a label that
      belongs to no class. */
  lemma MissingIdMatchesNoClass(r: FeedRecord, c: Classifier.VehicleClass)
    requires Get(r, "ID") == Absent || Get(r, "ID") == Null
    ensures !c.Matches(ObservationOf(r).vehicle)
  {
    var tag := ObservationOf(r).vehicle;
    assert tag == "Unknown" || tag == "None";
    assert !Classifier.IsDigits(tag) by {
      assert !Classifier.IsDigitChar(tag[0]);
    }
    assert Classifier.ParseInt(tag).None?;
  }

  /** After a successful round, each vehicle's history is what it was plus one line per
      change of trip among the round's records for it. */
  lemma PolledHistory(files: Files, data: Payload, stamps: seq<Stamp>, v: string)
    requires |stamps| == |VehiclesOf(data)|
    requires forall e :: e in Events(VehiclesOf(data), stamps) ==> TripReadable(e)
    ensures Lines(Polled(files, Fetched(data), stamps), VehiclePath(v)) ==
            Lines(files, VehiclePath(v)) + Appended(v, LastTripId(Lines(files, VehiclePath(v))), Events(VehiclesOf(data), stamps))
  {
    var evs := Events(VehiclesOf(data), stamps);
    assert forall i :: 0 <= i < |evs| ==> TripReadable(evs[i]) by {
      forall i | 0 <= i < |evs| ensures TripReadable(evs[i]) { assert evs[i] in evs; }
    }
    HistoryAfterSaveAll(files, evs, v);
  }
}
